/** Writing a run's events as frames and reading them back, whatever the chunks. */
module SseRoundTrip {
  import opened Wire
  import opened RunStreams
  import opened Utf8
  import opened Sse

  function Ascii(s: string): (b: seq<Byte>)
    requires forall i :: 0 <= i < |s| ==> s[i] < 128 as char
    ensures AllAscii(b)
  {
    seq(|s|, i requires 0 <= i < |s| => s[i] as int)
  }

  function TypeName(b: Body): (name: seq<Byte>)
    ensures AllAscii(name)
  {
    match b
    case RunStarted(_) => Ascii("run_started")
    case AssistantText(_) => Ascii("assistant_text")
    case ToolCall(_, _, _, _) => Ascii("tool_call")
    case ToolResult(_, _, _) => Ascii("tool_result")
    case Heartbeat => Ascii("heartbeat")
    case Succeeded(_) => Ascii("succeeded")
    case Failed(_, _) => Ascii("failed")
    case Cancelled => Ascii("cancelled")
  }

  function FieldLine(name: seq<Byte>, value: seq<Byte>): seq<Byte> {
    name + [COLON, SPACE] + value
  }

  /** The frame of an event: its id, its type, its data, and the blank line that ends it. */
  function FrameText(c: Codec, e: RunEvent): seq<Byte> {
    FieldLine(ID, Decimal(e.seqNo)) + [LF]
    + (FieldLine(EVENT, TypeName(e.body)) + [LF]
       + (FieldLine(DATA, c.write(e)) + [LF]
          + ([] + [LF] + [])))
  }

  /** The frame, or None for an event that is too large to send. */
  function Encode(c: Codec, e: RunEvent): Option<seq<Byte>> {
    if |FrameText(c, e)| > MAX_EVENT_BYTES then None else Some(FrameText(c, e))
  }

  /** What the framing asks of the JSON codec: compact one-line UTF-8 text that reads back. */
  ghost predicate Sound(c: Codec) {
    forall e: RunEvent ::
      OneLine(c.write(e)) && Valid(c.write(e))
      && c.read(c.write(e)) == JsonObject(Some(TypeName(e.body)), AnEvent(e))
  }

  predicate AtFrameStart(d: Decoder) {
    BetweenLines(d) && d.frameBytes == 0 && d.fields == map[]
  }

  lemma FieldLineSplits(name: seq<Byte>, value: seq<Byte>)
    requires name in {ID, EVENT, DATA} && Valid(value)
    ensures var text := FieldLine(name, value);
            && text != [] && text[0] != COLON && !(BYTE_ORDER_MARK <= text) && Valid(text)
            && FirstColon(text) == |name| < |text| && text[..|name|] == name
            && WithoutPrefix(text[|name| + 1..], [SPACE]) == value
  {
    var text := FieldLine(name, value);
    assert AllAscii(name + [COLON, SPACE]);
    AsciiThenValid(name + [COLON, SPACE], value);
    hide Valid;
    assert text == name + ([COLON, SPACE] + value);
    assert text[|name|] == COLON;
    assert forall i :: 0 <= i < |name| ==> text[i] == name[i] != COLON;
    assert text[|name| + 1..] == [SPACE] + value;
    assert ([SPACE] + value)[1..] == value;
  }

  lemma FieldLineReads(c: Codec, d: Decoder, name: seq<Byte>, value: seq<Byte>)
    requires d.Open? && name in {ID, EVENT, DATA} && Valid(value)
    ensures ReadLine(c, d, FieldLine(name, value)) == RecordField(d.(firstLine := false), name, value)
  {
    hide RecordField, Dispatch, Valid, FirstColon, FieldLine;
    FieldLineSplits(name, value);
  }

  lemma LineThenRest(c: Codec, d: Decoder, line: seq<Byte>, rest: seq<Byte>)
    requires BetweenLines(d) && OneLine(line)
    ensures var first := CountAndRead(c, d, line);
            Run(c, d, line + [LF] + rest) ==
            if first.0.Open? then (Run(c, first.0, rest).0, first.1 + Run(c, first.0, rest).1) else first
  {
    hide Run, ReadLine;
    RunLine(c, d, line, LF);
    RunAppend(c, d, line + [LF], rest);
    assert d.unfinished + line == line;
    var first := CountAndRead(c, d, line);
    assert d.(lineFeedMayFollow := false, unfinished := line).(unfinished := []) == d;
    if !first.0.Open? {
      RunClosed(c, first.0, rest);
      assert first.1 + [] == first.1;
    }
  }

  /** A field line of a frame is recorded, unless it passes the size limit. */
  lemma FieldThenRest(c: Codec, d: Decoder, name: seq<Byte>, value: seq<Byte>, rest: seq<Byte>)
    requires BetweenLines(d) && name in {ID, EVENT, DATA} && name !in d.fields
    requires Valid(value) && OneLine(value)
    ensures var size := d.frameBytes + |FieldLine(name, value)| + 1;
            Run(c, d, FieldLine(name, value) + [LF] + rest) ==
            if size > MAX_EVENT_BYTES then Broken(OversizedFrame)
            else Run(c, d.(firstLine := false, frameBytes := size, fields := d.fields[name := value]), rest)
  {
    hide Run, ReadLine;
    var line := FieldLine(name, value);
    LineThenRest(c, d, line, rest);
    var size := d.frameBytes + |line| + 1;
    if size <= MAX_EVENT_BYTES {
      FieldLineReads(c, d.(frameBytes := size), name, value);
      var after := d.(firstLine := false, frameBytes := size, fields := d.fields[name := value]);
      assert [] + Run(c, after, rest).1 == Run(c, after, rest).1;
    }
  }

  lemma AsciiIsValid(s: seq<Byte>)
    requires AllAscii(s)
    ensures Valid(s)
  {
    AsciiThenValid(s, []);
    assert s + [] == s;
  }

  /** The blank line that ends a frame of `e`: its event, or the rule of the stream it breaks. */
  lemma BlankLineEnds(c: Codec, d: Decoder, e: RunEvent)
    requires Sound(c) && BetweenLines(d)
    requires d.fields == map[ID := Decimal(e.seqNo), EVENT := TypeName(e.body), DATA := c.write(e)]
    ensures Run(c, d, [] + [LF] + []) ==
            if d.frameBytes + 1 > MAX_EVENT_BYTES then Broken(OversizedFrame)
            else match BrokenRule(d.stream, e)
              case Some(kind) => Broken(kind)
              case None => (d.(firstLine := false, stream := Recorded(d.stream, e), fields := map[], frameBytes := 0),
                            [Item(e)])
  {
    hide Run, BrokenRule, Recorded;
    LineThenRest(c, d, [], []);
    assert c.read(c.write(e)) == JsonObject(Some(TypeName(e.body)), AnEvent(e));
    var first := CountAndRead(c, d, []);
    assert |ID| == 2 && |DATA| == 4 && |EVENT| == 5;
    assert d.fields[ID] == Decimal(e.seqNo) && d.fields[EVENT] == TypeName(e.body) && d.fields[DATA] == c.write(e);
    assert !(BYTE_ORDER_MARK <= []);
    RunNothing(c, first.0);
    assert first.1 + [] == first.1;
  }

  lemma RunNothing(c: Codec, d: Decoder)
    ensures Run(c, d, []) == (d, [])
  {
  }

  /** A frame the encoder writes reads back as its event or as the stream rule it breaks; one the
      encoder refuses as too large, the decoder refuses as oversized. */
  lemma FrameReads(c: Codec, d: Decoder, e: RunEvent)
    requires Sound(c) && AtFrameStart(d)
    ensures Run(c, d, FrameText(c, e)) ==
            if Encode(c, e).None? then Broken(OversizedFrame)
            else match BrokenRule(d.stream, e)
              case Some(kind) => Broken(kind)
              case None => (d.(stream := Recorded(d.stream, e), firstLine := false), [Item(e)])
  {
    hide Run, BrokenRule, Recorded, Decimal, TypeName, Valid;
    assert OneLine(c.write(e)) && Valid(c.write(e));
    AsciiIsValid(Decimal(e.seqNo));
    AsciiIsValid(TypeName(e.body));
    TypeNamesAreOneLine(e.body);
    var data := FieldLine(DATA, c.write(e)) + [LF] + ([] + [LF] + []);
    var event := FieldLine(EVENT, TypeName(e.body)) + [LF] + data;
    FieldThenRest(c, d, ID, Decimal(e.seqNo), event);
    var d1 := Counted(d, ID, Decimal(e.seqNo));
    if d1.frameBytes <= MAX_EVENT_BYTES {
      FieldThenRest(c, d1, EVENT, TypeName(e.body), data);
      var d2 := Counted(d1, EVENT, TypeName(e.body));
      if d2.frameBytes <= MAX_EVENT_BYTES {
        FieldThenRest(c, d2, DATA, c.write(e), [] + [LF] + []);
        var d3 := Counted(d2, DATA, c.write(e));
        if d3.frameBytes <= MAX_EVENT_BYTES {
          BlankLineEnds(c, d3, e);
        }
      }
    }
  }

  function Counted(d: Decoder, name: seq<Byte>, value: seq<Byte>): Decoder
    requires d.Open?
  {
    d.(firstLine := false, frameBytes := d.frameBytes + |FieldLine(name, value)| + 1,
       fields := d.fields[name := value])
  }

  lemma TypeNamesAreOneLine(b: Body)
    ensures OneLine(TypeName(b))
  {
  }

  // ---------------------------------------------------------------- whole runs

  function Written(c: Codec, t: Trace): seq<Byte> {
    if t == [] then [] else Written(c, t[..|t| - 1]) + FrameText(c, t[|t| - 1])
  }

  function Items(t: Trace): seq<Decoded> {
    seq(|t|, i requires 0 <= i < |t| => Item(t[i]))
  }

  predicate AllFit(c: Codec, t: Trace) {
    forall i :: 0 <= i < |t| ==> Encode(c, t[i]).Some?
  }

  lemma {:induction false} WrittenRunsReadBack(c: Codec, t: Trace)
    requires Sound(c) && Accepted(t) && AllFit(c, t)
    ensures Run(c, START, Written(c, t)) ==
            (START.(stream := PromisesOf(t), firstLine := t == []), Items(t))
    decreases |t|
  {
    hide Step, BrokenRule, FrameText, Recorded, Sound, Encode;
    if t == [] {
      assert Items(t) == [];
    } else {
      var before, e := t[..|t| - 1], t[|t| - 1];
      hide Run;
      WrittenRunsReadBack(c, before);
      RunAppend(c, START, Written(c, before), FrameText(c, e));
      FrameReads(c, START.(stream := PromisesOf(before), firstLine := before == []), e);
      ItemsAddUp(before, e, t);
    }
  }

  lemma ItemsAddUp(before: Trace, e: RunEvent, t: Trace)
    requires t == before + [e]
    ensures Items(before) + [Item(e)] == Items(t)
  {
    assert |Items(t)| == |before| + 1;
  }

  /** Every run the stream rules accept survives the wire: however its frames are cut into chunks,
      the decoder returns exactly its events, and closes quietly exactly when the run had ended. */
  lemma AcceptedRunsSurviveTheWire(c: Codec, t: Trace, chunks: seq<seq<Byte>>)
    requires Sound(c) && Accepted(t) && AllFit(c, t)
    requires Concat(chunks) == Written(c, t)
    ensures var (d, items) := RunChunks(c, START, chunks);
            && items == Items(t)
            && d.Open?
            && CloseItems(d) == if RunStreams.Ended(t) then [] else [Violation(Truncated)]
  {
    hide Step, BrokenRule;
    ChunksReadAsOneStream(c, START, chunks);
    WrittenRunsReadBack(c, t);
    AcceptedIsTheRunLanguage(t);
    PromisesTellTheTrace(t);
  }

  /** A run that goes on with an event its rules refuse is cut at exactly that event. */
  lemma RefusedEventEndsTheStream(c: Codec, t: Trace, e: RunEvent, chunks: seq<seq<Byte>>)
    requires Sound(c) && Accepted(t) && AllFit(c, t) && Encode(c, e).Some? && !MayFollow(t, e)
    requires Concat(chunks) == Written(c, t) + FrameText(c, e)
    ensures BrokenRule(PromisesOf(t), e).Some?
    ensures RunChunks(c, START, chunks) ==
            (BrokeContract, Items(t) + [Violation(BrokenRule(PromisesOf(t), e).value)])
  {
    hide Step, BrokenRule, FrameText;
    ChunksReadAsOneStream(c, START, chunks);
    WrittenRunsReadBack(c, t);
    RunAppend(c, START, Written(c, t), FrameText(c, e));
    FrameReads(c, START.(stream := PromisesOf(t), firstLine := t == []), e);
    AcceptedIsTheRunLanguage(t);
    AcceptsExactlyWhatMayFollow(t, e);
  }
}
