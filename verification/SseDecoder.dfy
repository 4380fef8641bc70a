/** The incremental decoder of a run's frames as its source writes it: fields updated in place, whole
    segments of a chunk taken at once. Each method is tied to the byte machine of module Sse. */
module SseDecoder {
  import opened Wire
  import opened RunStreams
  import opened Utf8
  import Sse

  datatype DecoderState = Opened | Ended | BrokeContract

  /** Reading the rest of the chunk from here completes exactly what the whole chunk completes. */
  ghost predicate Completes(c: Sse.Codec, start: Sse.Decoder, chunk: seq<Byte>,
                            now: Sse.Decoder, items: seq<Sse.Decoded>, rest: seq<Byte>)
  {
    var (last, more) := Sse.Run(c, now, rest);
    Sse.Run(c, start, chunk) == (last, items + more)
  }

  lemma NextLineEndOfRest(chunk: seq<Byte>, position: nat)
    requires position <= |chunk|
    ensures var k := Sse.NextLineEnd(chunk, position);
            && Sse.NextLineEnd(chunk[position..], 0) == k - position
            && Sse.OneLine(chunk[position..k])
            && (k == |chunk| ==> chunk[position..] == chunk[position..k])
  {
  }

  lemma LineOfRest(chunk: seq<Byte>, position: nat, k: nat)
    requires position <= k < |chunk|
    ensures chunk[position..][..k - position] == chunk[position..k]
    ensures Sse.AfterLineEnd(chunk[position..], k - position) == Sse.AfterLineEnd(chunk, k)
  {
  }

  lemma HeldCompletes(c: Sse.Codec, start: Sse.Decoder, chunk: seq<Byte>, before: Sse.Decoder,
                      items: seq<Sse.Decoded>, rest: seq<Byte>)
    requires Completes(c, start, chunk, before, items, rest)
    ensures var (last, held) := Sse.Run(c, before, rest); Sse.Run(c, start, chunk) == (last, items + held)
    ensures !before.Open? ==> Sse.Run(c, start, chunk) == (before, items)
  {
    hide Sse.Step;
    assert items + [] == items;
  }

  /** The next complete line of the rest, read and followed past its end, keeps the chunk's reading. */
  lemma LineCompletes(c: Sse.Codec, start: Sse.Decoder, chunk: seq<Byte>, before: Sse.Decoder,
                      items: seq<Sse.Decoded>, rest: seq<Byte>, first: Sse.Outcome, last: bool, tail: seq<Byte>)
    requires Completes(c, start, chunk, before, items, rest)
    requires Sse.Run(c, before, rest) == Sse.Then(first, last, Sse.Run(c, first.0, tail))
    ensures !first.0.Open? ==> forall any :: Completes(c, start, chunk, first.0, items + first.1, any)
    ensures first.0.Open? && last ==>
              Completes(c, start, chunk, first.0.(lineFeedMayFollow := true), items + first.1, [])
    ensures first.0.Open? && !last ==> Completes(c, start, chunk, first.0, items + first.1, tail)
  {
    hide Sse.Step;
    var second := Sse.Run(c, first.0, tail).1;
    assert items + (first.1 + second) == (items + first.1) + second;
    assert (items + first.1) + [] == items + first.1;
    if !first.0.Open? {
      forall any ensures Completes(c, start, chunk, first.0, items + first.1, any) {
        Sse.RunClosed(c, first.0, any);
      }
    }
  }

  class RunStreamDecoder {
    const codec: Sse.Codec
    const stream: RunStream
    var state: DecoderState
    var firstLine: bool
    var lineFeedMayFollow: bool
    var unfinishedLine: seq<Byte>
    var frameBytes: nat
    var fields: map<seq<Byte>, seq<Byte>>

    ghost function View(): Sse.Decoder
      reads this, stream
    {
      match state
      case Opened =>
        Sse.Open(stream.View(), firstLine, lineFeedMayFollow, unfinishedLine, frameBytes, fields)
      case Ended => Sse.Ended
      case BrokeContract => Sse.BrokeContract
    }

    /** What an open decoder holds never exceeds the limit. */
    ghost predicate Valid()
      reads this
    {
      state.Opened? ==> frameBytes + |unfinishedLine| <= Sse.MAX_EVENT_BYTES
    }

    constructor (codec: Sse.Codec)
      ensures Valid() && fresh(stream) && this.codec == codec
      ensures View() == Sse.START
    {
      this.codec := codec;
      stream := new RunStream();
      state, firstLine, lineFeedMayFollow, unfinishedLine, frameBytes, fields :=
        Opened, true, false, [], 0, map[];
    }

    /** The items a chunk completes; None is the refusal of a closed decoder. */
    method Feed(chunk: seq<Byte>) returns (decoded: Option<seq<Sse.Decoded>>)
      requires Valid()
      modifies this, stream
      ensures Valid()
      ensures decoded.Some? <==> old(View()).Open?
      ensures decoded.None? ==> View() == old(View())
      ensures decoded.Some? ==> (View(), decoded.value) == Sse.Run(codec, old(View()), chunk)
    {
      if !state.Opened? {
        return None;
      }
      hide Sse.Run, Sse.CountAndRead, Sse.AfterLineEnd, Sse.NextLineEnd, Completes, Sse.OneLine;
      ghost var start := View();
      var items: seq<Sse.Decoded> := [];
      var position := SkipLineFeedOfSplitCrlf(chunk);
      while state.Opened?
        invariant Valid() && 0 <= position <= |chunk| && !state.Ended?
        invariant state.Opened? && lineFeedMayFollow ==> position == |chunk|
        invariant state.Opened? ==> Completes(codec, start, chunk, View(), items, chunk[position..])
        invariant !state.Opened? ==> Sse.Run(codec, start, chunk) == (View(), items)
        decreases state.Opened?, |chunk| - position
      {
        var terminator := Sse.NextLineEnd(chunk, position);
        NextLineEndOfRest(chunk, position);
        if terminator == |chunk| {
          HeldCompletes(codec, start, chunk, View(), items, chunk[position..]);
          var held := Hold(chunk[position..]);
          return Some(items + held);
        }
        var emitted, next := ReadNext(chunk, position, terminator, start, items);
        items := items + emitted;
        position := next;
      }
      decoded := Some(items);
    }

    /** The next complete line, unless it exceeds the limit, and where the one after it begins. */
    method ReadNext(chunk: seq<Byte>, position: nat, terminator: nat, ghost start: Sse.Decoder,
                    ghost items: seq<Sse.Decoded>)
      returns (emitted: seq<Sse.Decoded>, next: nat)
      requires Valid() && state.Opened? && !lineFeedMayFollow
      requires position <= terminator < |chunk| && terminator == Sse.NextLineEnd(chunk, position)
      requires Completes(codec, start, chunk, View(), items, chunk[position..])
      modifies this, stream
      ensures Valid() && !state.Ended? && terminator < next <= |chunk|
      ensures state.Opened? && lineFeedMayFollow ==> next == |chunk|
      ensures state.Opened? ==> Completes(codec, start, chunk, View(), items + emitted, chunk[next..])
      ensures !state.Opened? ==> Sse.Run(codec, start, chunk) == (View(), items + emitted)
    {
      hide Sse.Run, Sse.AfterLineEnd, Sse.NextLineEnd, Completes, Sse.ReadLine;
      ghost var before, rest, k := View(), chunk[position..], terminator - position;
      NextLineEndOfRest(chunk, position);
      LineOfRest(chunk, position, terminator);
      Sse.NextLineReads(codec, before, rest, k);
      ghost var first := Sse.CountAndRead(codec, before.(unfinished := []), before.unfinished + rest[..k]);
      LineCompletes(codec, start, chunk, before, items, rest, first,
                    rest[k] == Sse.CR && k + 1 == |rest|, Sse.AfterLineEnd(rest, k));
      var exceeds := ExceedsLimit(terminator - position + 1);
      if exceeds {
        emitted := Emit(Some(Sse.Violation(OversizedFrame)));
        next := terminator + 1;
        assert first == (Sse.BrokeContract, emitted);
      } else {
        emitted, next := TakeLine(chunk, position, terminator);
        assert emitted == first.1 && (!first.0.Open? ==> View() == first.0);
      }
      if !state.Opened? {
        HeldCompletes(codec, start, chunk, View(), items + emitted, []);
      }
    }

    /** Reads the line that ends at `terminator`, and says where the next one begins. */
    method TakeLine(chunk: seq<Byte>, position: nat, terminator: nat)
      returns (emitted: seq<Sse.Decoded>, next: nat)
      requires Valid() && state.Opened? && !lineFeedMayFollow
      requires position <= terminator < |chunk| && terminator == Sse.NextLineEnd(chunk, position)
      requires frameBytes + |unfinishedLine| + terminator - position + 1 <= Sse.MAX_EVENT_BYTES
      modifies this, stream
      ensures Valid() && !state.Ended?
      ensures terminator < next <= |chunk|
      ensures state.Opened? && lineFeedMayFollow ==> next == |chunk|
      ensures var before := old(View());
              var first := Sse.CountAndRead(codec, before.(unfinished := []),
                                            before.unfinished + chunk[position..terminator]);
              && emitted == first.1
              && chunk[next..] == Sse.AfterLineEnd(chunk, terminator)
              && View() == if first.0.Open? && chunk[terminator] == Sse.CR && terminator + 1 == |chunk|
                           then first.0.(lineFeedMayFollow := true) else first.0
    {
      hide Sse.ReadLine, Sse.NextLineEnd, Sse.AfterLineEnd;
      var line := unfinishedLine + chunk[position..terminator];
      ghost var before := View();
      Sse.ReadingKeepsTheLineState(codec, before.(unfinished := []), line);
      unfinishedLine := [];
      frameBytes := frameBytes + |line| + 1;
      var outcome := ReadLine(line);
      emitted := Emit(outcome);
      next := AfterLineEnd(chunk, terminator);
    }

    method SkipLineFeedOfSplitCrlf(chunk: seq<Byte>) returns (position: nat)
      requires state.Opened?
      modifies this`lineFeedMayFollow
      ensures position <= |chunk|
      ensures lineFeedMayFollow ==> chunk == []
      ensures Completes(codec, old(View()), chunk, View(), [], chunk[position..])
    {
      ghost var start := View();
      var skip := lineFeedMayFollow && |chunk| > 0 && chunk[0] == Sse.LF;
      if |chunk| > 0 {
        lineFeedMayFollow := false;
        Sse.RunSkipsLineFeed(codec, start, chunk);
      }
      position := if skip then 1 else 0;
      assert chunk[position..] == if skip then chunk[1..] else chunk;
      ghost var more := Sse.Run(codec, View(), chunk[position..]).1;
      assert [] + more == more;
    }

    method AfterLineEnd(chunk: seq<Byte>, terminator: nat) returns (position: nat)
      requires terminator < |chunk|
      modifies this`lineFeedMayFollow
      ensures terminator < position <= |chunk|
      ensures lineFeedMayFollow == (old(lineFeedMayFollow)
                                    || (chunk[terminator] == Sse.CR && terminator + 1 == |chunk|))
      ensures chunk[position..] == Sse.AfterLineEnd(chunk, terminator)
    {
      position := terminator + 1;
      if chunk[terminator] != Sse.CR {
        return;
      }
      if position == |chunk| {
        lineFeedMayFollow := true;
        return;
      }
      if chunk[position] == Sse.LF {
        position := position + 1;
      }
    }

    method ExceedsLimit(moreBytes: nat) returns (exceeds: bool)
      ensures exceeds == (frameBytes + |unfinishedLine| + moreBytes > Sse.MAX_EVENT_BYTES)
    {
      exceeds := frameBytes + |unfinishedLine| + moreBytes > Sse.MAX_EVENT_BYTES;
    }

    method Hold(rest: seq<Byte>) returns (items: seq<Sse.Decoded>)
      requires Valid() && state.Opened? && Sse.OneLine(rest)
      requires rest != [] ==> !lineFeedMayFollow
      modifies this
      ensures Valid() && !state.Ended?
      ensures (View(), items) == Sse.Run(codec, old(View()), rest)
    {
      if rest != [] {
        Sse.RunSegment(codec, View(), rest);
      }
      var exceeds := ExceedsLimit(|rest|);
      if exceeds {
        items := Emit(Some(Sse.Violation(OversizedFrame)));
        return;
      }
      items := [];
      unfinishedLine := unfinishedLine + rest;
      assert rest == [] ==> unfinishedLine == old(unfinishedLine);
    }

    method Emit(outcome: Option<Sse.Decoded>) returns (items: seq<Sse.Decoded>)
      modifies this`state
      ensures items == if outcome.None? then [] else [outcome.value]
      ensures state == if outcome.Some? && outcome.value.Violation? then BrokeContract else old(state)
    {
      if outcome.None? {
        return [];
      }
      if outcome.value.Violation? {
        state := BrokeContract;
      }
      items := [outcome.value];
    }

    /** An outcome and the fields after it are what the byte machine says, before a violation closes
        the decoder. */
    ghost predicate Agrees(outcome: Option<Sse.Decoded>, expected: Sse.Outcome)
      reads this, stream
    {
      match outcome
      case None => expected == (View(), [])
      case Some(Item(e)) => expected == (View(), [Sse.Item(e)])
      case Some(Violation(kind)) => expected == Sse.Broken(kind)
    }

    method ReadLine(line: seq<Byte>) returns (outcome: Option<Sse.Decoded>)
      requires state.Opened?
      modifies this, stream
      ensures state.Opened?
      ensures Agrees(outcome, Sse.ReadLine(codec, old(View()), line))
    {
      var text := line;
      if firstLine {
        text := Sse.WithoutPrefix(line, Sse.BYTE_ORDER_MARK);
        firstLine := false;
      }
      if |text| == 0 {
        outcome := Dispatch();
        return;
      }
      if !Utf8.Valid(text) {
        return Some(Sse.Violation(MalformedFrame));
      }
      if text[0] == Sse.COLON {
        return None;
      }
      var colon := Sse.FirstColon(text);
      var name := text[..colon];
      var value := [];
      if colon < |text| {
        value := Sse.WithoutPrefix(text[colon + 1..], [Sse.SPACE]);
      }
      outcome := RecordField(name, value);
    }

    method RecordField(name: seq<Byte>, value: seq<Byte>) returns (outcome: Option<Sse.Decoded>)
      requires state.Opened?
      modifies this`fields
      ensures Agrees(outcome, Sse.RecordField(old(View()), name, value))
    {
      if name == Sse.RETRY {
        return None;
      }
      if name !in {Sse.ID, Sse.EVENT, Sse.DATA} || name in fields {
        return Some(Sse.Violation(MalformedFrame));
      }
      fields := fields[name := value];
      outcome := None;
    }

    method Dispatch() returns (outcome: Option<Sse.Decoded>)
      requires state.Opened?
      modifies this`fields, this`frameBytes, stream
      ensures Agrees(outcome, Sse.Dispatch(codec, old(View())))
    {
      var frame := fields;
      fields := map[];
      frameBytes := 0;
      if frame == map[] {
        return None;
      }
      if !({Sse.ID, Sse.EVENT, Sse.DATA} <= frame.Keys) {
        return Some(Sse.Violation(MalformedFrame));
      }
      outcome := EventFrom(frame[Sse.ID], frame[Sse.EVENT], frame[Sse.DATA]);
    }

    method EventFrom(frameId: seq<Byte>, eventType: seq<Byte>, data: seq<Byte>)
      returns (outcome: Option<Sse.Decoded>)
      requires state.Opened?
      modifies stream
      ensures Agrees(outcome, Sse.EventFrom(codec, old(View()), frameId, eventType, data))
    {
      var raw := codec.read(data);
      if raw.NotAJsonObject? {
        return Some(Sse.Violation(InvalidJson));
      }
      if raw.typeName != Some(eventType) {
        return Some(Sse.Violation(EventTypeMismatch));
      }
      if raw.parsed.NotAnEvent? {
        return Some(Sse.Violation(raw.parsed.kind));
      }
      var e := raw.parsed.event;
      if frameId != Sse.Decimal(e.seqNo) {
        return Some(Sse.Violation(IdMismatch));
      }
      var violation := stream.Accept(e);
      outcome := Some(if violation.Some? then Sse.Violation(violation.value) else Sse.Item(e));
    }

    /** The end of the input; None is the refusal of a second close. After a violation it is quiet. */
    method Close() returns (items: Option<seq<Sse.Decoded>>)
      modifies this`state
      ensures old(View()).Open? ==> items == Some(Sse.CloseItems(old(View()))) && View().Ended?
      ensures old(View()).BrokeContract? ==> items == Some([]) && View() == old(View())
      ensures old(View()).Ended? ==> items == None && View() == old(View())
    {
      if state.BrokeContract? {
        return Some([]);
      }
      if !state.Opened? {
        return None;
      }
      state := Ended;
      var violation := stream.Close();
      items := Some(if violation.None? then [] else [Sse.Violation(violation.value)]);
    }
  }
}
