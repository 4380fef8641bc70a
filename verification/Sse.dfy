/** The server-sent-event framing of a run's events (packages/client/src/agent_runtime_client/sse.py):
    the incremental decoder as a class, the byte machine it refines, and the whole-stream reading
    that says what any chunking must yield. Line ends and the byte order mark follow section 9.2.5
    of the WHATWG HTML Living Standard; text is kept as its UTF-8 bytes. */
module Sse {
  import opened Wire
  import opened RunStreams
  import opened Utf8

  const LF: Byte := 10
  const CR: Byte := 13
  const SPACE: Byte := 32
  const COLON: Byte := 58
  const BYTE_ORDER_MARK: seq<Byte> := [0xEF, 0xBB, 0xBF]
  const ID: seq<Byte> := [105, 100]
  const EVENT: seq<Byte> := [101, 118, 101, 110, 116]
  const DATA: seq<Byte> := [100, 97, 116, 97]
  const RETRY: seq<Byte> := [114, 101, 116, 114, 121]
  const MAX_EVENT_BYTES: nat := 1_048_576

  /** What one `data` value reads as: not a JSON object, or one with its `type` (None unless it is
      a string) and what `parse_event` makes of it. */
  datatype Parsed = AnEvent(event: RunEvent) | NotAnEvent(kind: ViolationKind)
  datatype Reading = NotAJsonObject | JsonObject(typeName: Option<seq<Byte>>, parsed: Parsed)

  /** The JSON codec of an event, as the framing sees it. */
  datatype Codec = Codec(write: RunEvent -> seq<Byte>, read: seq<Byte> -> Reading)

  datatype Decoded = Item(event: RunEvent) | Violation(kind: ViolationKind)

  predicate LineEnd(b: Byte) {
    b == LF || b == CR
  }

  predicate OneLine(s: seq<Byte>) {
    forall i :: 0 <= i < |s| ==> !LineEnd(s[i])
  }

  /** The first line end of `s` at or after `from`, or the end of `s`. */
  function NextLineEnd(s: seq<Byte>, from: nat): (k: nat)
    requires from <= |s|
    ensures from <= k <= |s|
    ensures forall i :: from <= i < k ==> !LineEnd(s[i])
    ensures k < |s| ==> LineEnd(s[k])
    decreases |s| - from
  {
    if from == |s| || LineEnd(s[from]) then from else NextLineEnd(s, from + 1)
  }

  function WithoutPrefix(s: seq<Byte>, prefix: seq<Byte>): seq<Byte> {
    if prefix <= s then s[|prefix|..] else s
  }

  function FirstColon(s: seq<Byte>): (k: nat)
    ensures k <= |s| && (k < |s| ==> s[k] == COLON)
    ensures forall i :: 0 <= i < k ==> s[i] != COLON
  {
    if s == [] || s[0] == COLON then 0 else 1 + FirstColon(s[1..])
  }

  // ---------------------------------------------------------------- one line

  /** A decoder between two bytes. Once closed it holds nothing more. */
  datatype Decoder =
    | Open(stream: Promises, firstLine: bool, lineFeedMayFollow: bool,
           unfinished: seq<Byte>, frameBytes: nat, fields: map<seq<Byte>, seq<Byte>>)
    | Ended
    | BrokeContract

  const START := Open(NOTHING_PROMISED, true, false, [], 0, map[])

  type Outcome = (Decoder, seq<Decoded>)

  function Broken(kind: ViolationKind): Outcome {
    (BrokeContract, [Violation(kind)])
  }

  /** What a complete line does to an open decoder that counted it. */
  function ReadLine(c: Codec, d: Decoder, line: seq<Byte>): Outcome
    requires d.Open?
  {
    var text := if d.firstLine then WithoutPrefix(line, BYTE_ORDER_MARK) else line;
    var d := d.(firstLine := false);
    if text == [] then Dispatch(c, d)
    else if !Valid(text) then Broken(MalformedFrame)
    else if text[0] == COLON then (d, [])
    else
      var k := FirstColon(text);
      var value := if k < |text| then WithoutPrefix(text[k + 1..], [SPACE]) else [];
      RecordField(d, text[..k], value)
  }

  function RecordField(d: Decoder, name: seq<Byte>, value: seq<Byte>): Outcome
    requires d.Open?
  {
    if name == RETRY then (d, [])
    else if name !in {ID, EVENT, DATA} then Broken(MalformedFrame)
    else if name in d.fields then Broken(MalformedFrame)
    else (d.(fields := d.fields[name := value]), [])
  }

  function Dispatch(c: Codec, d: Decoder): Outcome
    requires d.Open?
  {
    var fields := d.fields;
    var d := d.(fields := map[], frameBytes := 0);
    if fields == map[] then (d, [])
    else if !({ID, EVENT, DATA} <= fields.Keys) then Broken(MalformedFrame)
    else EventFrom(c, d, fields[ID], fields[EVENT], fields[DATA])
  }

  function EventFrom(c: Codec, d: Decoder, frameId: seq<Byte>, eventType: seq<Byte>, data: seq<Byte>): Outcome
    requires d.Open?
  {
    match c.read(data)
    case NotAJsonObject => Broken(InvalidJson)
    case JsonObject(typeName, parsed) =>
      if typeName != Some(eventType) then Broken(EventTypeMismatch)
      else match parsed
        case NotAnEvent(kind) => Broken(kind)
        case AnEvent(e) =>
          if frameId != Decimal(e.seqNo) then Broken(IdMismatch)
          else match BrokenRule(d.stream, e)
            case Some(kind) => Broken(kind)
            case None => (d.(stream := Recorded(d.stream, e)), [Item(e)])
  }

  function Decimal(n: nat): (text: seq<Byte>)
    ensures text != [] && forall i :: 0 <= i < |text| ==> 48 <= text[i] <= 57
  {
    if n < 10 then [48 + n] else Decimal(n / 10) + [48 + n % 10]
  }

  // ---------------------------------------------------------------- one byte at a time

  function FinishLine(c: Codec, d: Decoder): Outcome
    requires d.Open?
  {
    ReadLine(c, d.(unfinished := [], frameBytes := d.frameBytes + |d.unfinished| + 1), d.unfinished)
  }

  predicate ExceedsLimit(d: Decoder, more: nat)
    requires d.Open?
  {
    d.frameBytes + |d.unfinished| + more > MAX_EVENT_BYTES
  }

  function Step(c: Codec, d: Decoder, b: Byte): Outcome
    requires d.Open?
  {
    if b == LF && d.lineFeedMayFollow then (d.(lineFeedMayFollow := false), [])
    else if ExceedsLimit(d, 1) then Broken(OversizedFrame)
    else if LineEnd(b) then
      var (after, items) := FinishLine(c, d.(lineFeedMayFollow := false));
      (if after.Open? && b == CR then after.(lineFeedMayFollow := true) else after, items)
    else (d.(lineFeedMayFollow := false, unfinished := d.unfinished + [b]), [])
  }

  /** The decoder after `s`, and the items `s` completed; a closed decoder reads nothing. */
  function Run(c: Codec, d: Decoder, s: seq<Byte>): Outcome
    decreases |s|
  {
    if !d.Open? || s == [] then (d, [])
    else
      var (d1, items1) := Step(c, d, s[0]);
      var (d2, items2) := Run(c, d1, s[1..]);
      (d2, items1 + items2)
  }

  lemma {:induction false} RunAppend(c: Codec, d: Decoder, a: seq<Byte>, b: seq<Byte>)
    ensures var (d1, items1) := Run(c, d, a);
            var (d2, items2) := Run(c, d1, b);
            Run(c, d, a + b) == (d2, items1 + items2)
    decreases |a|
  {
    hide Step;
    var (d1, items1) := Run(c, d, a);
    var (d2, items2) := Run(c, d1, b);
    if !d.Open? {
    } else if a == [] {
      assert a + b == b;
      assert items1 + items2 == items2;
    } else {
      assert (a + b)[0] == a[0] && (a + b)[1..] == a[1..] + b;
      var (step, items) := Step(c, d, a[0]);
      RunAppend(c, step, a[1..], b);
      var rest := Run(c, step, a[1..]).1;
      assert items1 == items + rest;
      assert items + (rest + items2) == items1 + items2;
    }
  }

  /** Bytes without a line end are held, or break the size limit, whatever their number. */
  lemma {:induction false} RunSegment(c: Codec, d: Decoder, s: seq<Byte>)
    requires d.Open? && OneLine(s) && s != []
    ensures Run(c, d, s) ==
            if ExceedsLimit(d, |s|) then Broken(OversizedFrame)
            else (d.(lineFeedMayFollow := false, unfinished := d.unfinished + s), [])
    decreases |s|
  {
    hide ReadLine;
    var (d1, items1) := Step(c, d, s[0]);
    var (d2, items2) := Run(c, d1, s[1..]);
    assert items1 + items2 == if d1.Open? then items2 else items1;
    if |s| == 1 {
      assert s == [s[0]];
    } else if d1.Open? {
      RunSegment(c, d1, s[1..]);
      assert d1.unfinished + s[1..] == d.unfinished + s;
    }
  }

  lemma RunOne(c: Codec, d: Decoder, b: Byte)
    requires d.Open?
    ensures Run(c, d, [b]) == Step(c, d, b)
  {
    hide Step;
    var (d1, items) := Step(c, d, b);
    assert items + [] == items;
  }

  /** A whole line and the byte that ends it. */
  lemma RunLine(c: Codec, d: Decoder, line: seq<Byte>, end: Byte)
    requires d.Open? && OneLine(line) && LineEnd(end)
    requires line == [] && end == LF ==> !d.lineFeedMayFollow
    ensures Run(c, d, line + [end]) ==
            if ExceedsLimit(d, |line| + 1) then Broken(OversizedFrame)
            else
              var (after, items) := FinishLine(c, d.(lineFeedMayFollow := false, unfinished := d.unfinished + line));
              (if after.Open? && end == CR then after.(lineFeedMayFollow := true) else after, items)
  {
    hide FinishLine;
    if line == [] {
      assert line + [end] == [end];
      assert d.unfinished + line == d.unfinished;
      RunOne(c, d, end);
    } else {
      RunSegment(c, d, line);
      RunAppend(c, d, line, [end]);
      var held := Run(c, d, line).0;
      if held.Open? {
        RunOne(c, held, end);
        assert held.(lineFeedMayFollow := false) == held;
        assert [] + Step(c, held, end).1 == Step(c, held, end).1;
      } else {
        assert Run(c, d, line).1 + [] == Run(c, d, line).1;
      }
    }
  }

  /** A line feed expected after a carriage return changes nothing unless the next byte is one. */
  lemma RunAfterCarriageReturn(c: Codec, d: Decoder, s: seq<Byte>)
    requires d.Open? && s != [] && s[0] != LF
    ensures Run(c, d, s) == Run(c, d.(lineFeedMayFollow := false), s)
  {
    hide FinishLine;
  }

  /** What is left to read of a chunk once a line feed that ends a split CRLF is skipped. */
  lemma RunSkipsLineFeed(c: Codec, d: Decoder, s: seq<Byte>)
    requires d.Open? && s != []
    ensures Run(c, d, s) ==
            Run(c, d.(lineFeedMayFollow := false), if d.lineFeedMayFollow && s[0] == LF then s[1..] else s)
  {
    hide FinishLine;
    if s[0] != LF {
      RunAfterCarriageReturn(c, d, s);
    } else if d.lineFeedMayFollow {
      assert [] + Run(c, d.(lineFeedMayFollow := false), s[1..]).1
          == Run(c, d.(lineFeedMayFollow := false), s[1..]).1;
    }
  }

  // ---------------------------------------------------------------- chunks

  function Concat(chunks: seq<seq<Byte>>): seq<Byte> {
    if chunks == [] then [] else chunks[0] + Concat(chunks[1..])
  }

  /** A consumer that feeds every chunk until the decoder closes. */
  function RunChunks(c: Codec, d: Decoder, chunks: seq<seq<Byte>>): Outcome
    decreases |chunks|
  {
    if !d.Open? || chunks == [] then (d, [])
    else
      var (d1, items1) := Run(c, d, chunks[0]);
      var (d2, items2) := RunChunks(c, d1, chunks[1..]);
      (d2, items1 + items2)
  }

  lemma {:induction false} ChunksReadAsOneStream(c: Codec, d: Decoder, chunks: seq<seq<Byte>>)
    ensures RunChunks(c, d, chunks) == Run(c, d, Concat(chunks))
    decreases |chunks|
  {
    hide Step;
    if d.Open? && chunks != [] {
      RunAppend(c, d, chunks[0], Concat(chunks[1..]));
      ChunksReadAsOneStream(c, Run(c, d, chunks[0]).0, chunks[1..]);
    }
  }

  function CloseItems(d: Decoder): seq<Decoded> {
    if d.Open? && d.stream.terminal.None? then [Violation(Truncated)] else []
  }

  /** Two chunkings of one byte stream yield the same items, leave the same decoder and close alike. */
  lemma ChunkingDoesNotMatter(c: Codec, chunks: seq<seq<Byte>>, others: seq<seq<Byte>>)
    requires Concat(chunks) == Concat(others)
    ensures RunChunks(c, START, chunks) == RunChunks(c, START, others)
    ensures CloseItems(RunChunks(c, START, chunks).0) == CloseItems(RunChunks(c, START, others).0)
  {
    ChunksReadAsOneStream(c, START, chunks);
    ChunksReadAsOneStream(c, START, others);
  }

  // ---------------------------------------------------------------- the whole stream at once

  function AfterLineEnd(s: seq<Byte>, k: nat): seq<Byte>
    requires k < |s|
  {
    if s[k] == CR && k + 1 < |s| && s[k + 1] == LF then s[k + 2..] else s[k + 1..]
  }

  /** The complete lines of `s` and the unfinished rest after them. */
  function Lines(s: seq<Byte>): (seq<seq<Byte>>, seq<Byte>)
    decreases |s|
  {
    var k := NextLineEnd(s, 0);
    if k == |s| then ([], s)
    else
      var (lines, rest) := Lines(AfterLineEnd(s, k));
      ([s[..k]] + lines, rest)
  }

  /** A complete line, counted against the size limit before it is read. */
  function CountAndRead(c: Codec, d: Decoder, line: seq<Byte>): Outcome
    requires d.Open?
  {
    if d.frameBytes + |line| + 1 > MAX_EVENT_BYTES then Broken(OversizedFrame)
    else ReadLine(c, d.(frameBytes := d.frameBytes + |line| + 1), line)
  }

  /** Every line in turn; then the unfinished rest is held, if the size limit allows it. */
  function ReadLines(c: Codec, d: Decoder, lines: seq<seq<Byte>>, rest: seq<Byte>, mayFollow: bool): Outcome
    decreases |lines|
  {
    if !d.Open? then (d, [])
    else if lines == [] then
      if d.frameBytes + |rest| > MAX_EVENT_BYTES then Broken(OversizedFrame)
      else (d.(unfinished := rest, lineFeedMayFollow := mayFollow), [])
    else
      var (d1, items1) := CountAndRead(c, d, lines[0]);
      var (d2, items2) := ReadLines(c, d1, lines[1..], rest, mayFollow);
      (d2, items1 + items2)
  }

  predicate BetweenLines(d: Decoder) {
    d.Open? && d.unfinished == [] && !d.lineFeedMayFollow && d.frameBytes <= MAX_EVENT_BYTES
  }

  lemma ReadingKeepsTheLineState(c: Codec, d: Decoder, line: seq<Byte>)
    requires d.Open?
    ensures var after := CountAndRead(c, d, line).0;
            after.Open? ==> && after.unfinished == d.unfinished
                            && after.lineFeedMayFollow == d.lineFeedMayFollow
                            && after.frameBytes <= MAX_EVENT_BYTES
  {
  }

  predicate EndsInCarriageReturn(s: seq<Byte>) {
    s != [] && s[|s| - 1] == CR
  }

  /** After a carriage return, a line feed is skipped and any other byte is read as usual. */
  lemma RunRest(c: Codec, d: Decoder, s: seq<Byte>, k: nat)
    requires k < |s| && d.Open? && !d.lineFeedMayFollow
    ensures Run(c, if s[k] == CR then d.(lineFeedMayFollow := true) else d, s[k + 1..]) ==
            if s[k] == CR && k + 1 == |s| then (d.(lineFeedMayFollow := true), [])
            else Run(c, d, AfterLineEnd(s, k))
  {
    hide FinishLine;
    var rest := s[k + 1..];
    if s[k] == CR && rest != [] {
      if rest[0] == LF {
        assert rest[1..] == s[k + 2..];
        assert [] + Run(c, d, rest[1..]).1 == Run(c, d, rest[1..]).1;
      } else {
        RunAfterCarriageReturn(c, d.(lineFeedMayFollow := true), rest);
      }
    }
  }

  /** `second` reads what follows the line that gave `first`; nothing follows a last carriage return. */
  function Then(first: Outcome, lastReturn: bool, second: Outcome): Outcome {
    if !first.0.Open? then first
    else if lastReturn then (first.0.(lineFeedMayFollow := true), first.1)
    else (second.0, first.1 + second.1)
  }

  /** A complete line: what the decoder held of it and the bytes up to its end. */
  lemma NextLineReads(c: Codec, d: Decoder, s: seq<Byte>, k: nat)
    requires d.Open? && !d.lineFeedMayFollow && k == NextLineEnd(s, 0) < |s|
    ensures var first := CountAndRead(c, d.(unfinished := []), d.unfinished + s[..k]);
            Run(c, d, s) == Then(first, s[k] == CR && k + 1 == |s|, Run(c, first.0, AfterLineEnd(s, k)))
  {
    hide ReadLine, Step, Run;
    var line, rest := s[..k], s[k + 1..];
    assert line == s[0..k];
    assert s == (line + [s[k]]) + rest;
    RunLine(c, d, line, s[k]);
    RunAppend(c, d, line + [s[k]], rest);
    ReadingKeepsTheLineState(c, d.(unfinished := []), d.unfinished + line);
    var (after, items) := CountAndRead(c, d.(unfinished := []), d.unfinished + line);
    assert items + [] == items;
    if after.Open? {
      RunRest(c, after, s, k);
    } else {
      RunClosed(c, after, rest);
    }
  }

  lemma FirstLineReads(c: Codec, d: Decoder, s: seq<Byte>, k: nat)
    requires BetweenLines(d) && k == NextLineEnd(s, 0) < |s|
    ensures var first := CountAndRead(c, d, s[..k]);
            Run(c, d, s) == Then(first, s[k] == CR && k + 1 == |s|, Run(c, first.0, AfterLineEnd(s, k)))
  {
    hide ReadLine, Run;
    NextLineReads(c, d, s, k);
    assert d.unfinished + s[..k] == s[..k];
    assert d.(unfinished := []) == d;
  }

  lemma RunClosed(c: Codec, d: Decoder, s: seq<Byte>)
    requires !d.Open?
    ensures Run(c, d, s) == (d, [])
  {
  }

  /** The whole stream read line by line, noting whether a carriage return ends it. */
  function ReadWhole(c: Codec, d: Decoder, s: seq<Byte>): Outcome {
    var (lines, rest) := Lines(s);
    ReadLines(c, d, lines, rest, EndsInCarriageReturn(s))
  }

  lemma ReadWholeUnfolds(c: Codec, d: Decoder, s: seq<Byte>, k: nat)
    requires BetweenLines(d) && k == NextLineEnd(s, 0) < |s|
    ensures var first := CountAndRead(c, d, s[..k]);
            ReadWhole(c, d, s) ==
            Then(first, s[k] == CR && k + 1 == |s|, ReadWhole(c, first.0, AfterLineEnd(s, k)))
  {
    hide CountAndRead, Lines, ReadLines, AfterLineEnd, NextLineEnd;
    var tail, mayFollow := AfterLineEnd(s, k), EndsInCarriageReturn(s);
    var (lines, rest) := Lines(tail);
    LinesUnfold(s, k);
    LastByte(s, k);
    ReadingKeepsTheLineState(c, d, s[..k]);
    var (after, items) := CountAndRead(c, d, s[..k]);
    ReadLinesUnfold(c, d, s[..k], lines, rest, mayFollow);
    assert items + [] == items;
  }

  lemma ReadLinesUnfold(c: Codec, d: Decoder, line: seq<Byte>, lines: seq<seq<Byte>>, rest: seq<Byte>,
                        mayFollow: bool)
    requires BetweenLines(d)
    ensures var (after, items) := CountAndRead(c, d, line);
            var (d2, items2) := ReadLines(c, after, lines, rest, mayFollow);
            && ReadLines(c, d, [line] + lines, rest, mayFollow) == (d2, items + items2)
            && (!after.Open? ==> (d2, items2) == (after, []))
            && (after.Open? && lines == [] && rest == [] ==>
                (d2, items2) == (after.(lineFeedMayFollow := mayFollow), []))
  {
    hide CountAndRead;
    assert ([line] + lines)[1..] == lines;
    ReadingKeepsTheLineState(c, d, line);
  }

  lemma LastByte(s: seq<Byte>, k: nat)
    requires k < |s| && LineEnd(s[k])
    ensures if s[k] == CR && k + 1 == |s| then EndsInCarriageReturn(s) && AfterLineEnd(s, k) == []
            else EndsInCarriageReturn(s) == EndsInCarriageReturn(AfterLineEnd(s, k))
  {
    var tail := AfterLineEnd(s, k);
    assert tail != [] ==> tail[|tail| - 1] == s[|s| - 1];
  }

  lemma LinesUnfold(s: seq<Byte>, k: nat)
    requires k == NextLineEnd(s, 0) < |s|
    ensures var (lines, rest) := Lines(AfterLineEnd(s, k)); Lines(s) == ([s[..k]] + lines, rest)
    ensures Lines([]) == ([], [])
  {
  }

  /** Reading byte by byte is reading the whole stream at once: the same items and the same state. */
  lemma {:induction false} BytesReadAsLines(c: Codec, d: Decoder, s: seq<Byte>)
    requires BetweenLines(d)
    ensures Run(c, d, s) == ReadWhole(c, d, s)
    decreases |s|
  {
    hide ReadLine, Step;
    var k := NextLineEnd(s, 0);
    assert s[0..k] == s[..k];
    if k == |s| {
      assert s[..k] == s;
      if s != [] {
        RunSegment(c, d, s);
        assert [] + s == s;
      }
    } else {
      hide Run, ReadWhole;
      FirstLineReads(c, d, s, k);
      ReadWholeUnfolds(c, d, s, k);
      ReadingKeepsTheLineState(c, d, s[..k]);
      var after := CountAndRead(c, d, s[..k]).0;
      if after.Open? {
        BytesReadAsLines(c, after, AfterLineEnd(s, k));
      }
    }
  }

  /** However a stream is chunked, a consumer gets what one reading of the whole stream says. */
  lemma ChunksReadAsTheWholeStream(c: Codec, chunks: seq<seq<Byte>>)
    ensures RunChunks(c, START, chunks) == ReadWhole(c, START, Concat(chunks))
  {
    ChunksReadAsOneStream(c, START, chunks);
    BytesReadAsLines(c, START, Concat(chunks));
  }

  // ---------------------------------------------------------------- a violation closes

  predicate EndsBroken(items: seq<Decoded>) {
    items != [] && items[|items| - 1].Violation?
  }

  /** Nothing is emitted, or an event, or the one violation that closes. */
  predicate EmitsOnce(o: Outcome) {
    !o.0.Ended? && |o.1| <= 1 && (o.0.BrokeContract? <==> EndsBroken(o.1))
  }

  lemma ALineBreaksOnce(c: Codec, d: Decoder, line: seq<Byte>)
    requires d.Open?
    ensures EmitsOnce(ReadLine(c, d, line))
  {
    hide BrokenRule, Valid, Decimal, FirstColon, Recorded, WithoutPrefix;
  }

  lemma AStepBreaksOnce(c: Codec, d: Decoder, b: Byte)
    requires d.Open?
    ensures EmitsOnce(Step(c, d, b))
  {
    hide ReadLine;
    ALineBreaksOnce(c, d.(lineFeedMayFollow := false, unfinished := [], frameBytes := d.frameBytes + |d.unfinished| + 1),
                    d.unfinished);
  }

  lemma MoreItems(first: seq<Decoded>, rest: seq<Decoded>)
    requires |first| <= 1 && !EndsBroken(first) && forall i :: 0 <= i < |rest| - 1 ==> !rest[i].Violation?
    ensures EndsBroken(first + rest) <==> EndsBroken(rest)
    ensures forall i :: 0 <= i < |first + rest| - 1 ==> !(first + rest)[i].Violation?
  {
  }

  /** A violation is always the last item and closes the decoder for good, and nothing else of a stream does. */
  lemma {:induction false} AViolationIsLastAndCloses(c: Codec, d: Decoder, s: seq<Byte>)
    requires d.Open?
    ensures var (t, items) := Run(c, d, s);
            && !t.Ended? && (t.BrokeContract? <==> EndsBroken(items))
            && forall i :: 0 <= i < |items| - 1 ==> !items[i].Violation?
    decreases |s|
  {
    if s != [] {
      AStepBreaksOnce(c, d, s[0]);
      hide Step, EndsBroken;
      var (t, items) := Step(c, d, s[0]);
      if t.Open? {
        AViolationIsLastAndCloses(c, t, s[1..]);
        MoreItems(items, Run(c, t, s[1..]).1);
      } else {
        assert items + [] == items;
      }
    }
  }

  /** One line of an unknown field closes the decoder, so the chunk after it is refused. */
  lemma AnUnknownFieldCloses(c: Codec)
    ensures Run(c, START, [120, LF]) == Broken(MalformedFrame)
  {
    var line: seq<Byte> := [120];
    assert [120, LF][1..] == [LF] && [LF][1..] == [] && line[1..] == [];
    var d := Step(c, START, 120).0;
    assert [] + line == line;
    UnknownFieldsBreak(c, d, line);
    assert Step(c, d, LF) == Broken(MalformedFrame);
    var violation, text: seq<Byte> := [Violation(MalformedFrame)], [120, LF];
    assert violation + [] == violation && [] + violation == violation;
    assert Run(c, d, [LF]) == (BrokeContract, violation);
    assert Step(c, START, text[0]) == (d, []) && text[1..] == [LF];
    hide Step;
    assert Run(c, START, text) == (BrokeContract, [] + violation);
  }

  lemma UnknownFieldsBreak(c: Codec, d: Decoder, line: seq<Byte>)
    requires d.Open? && line == [120]
    ensures ReadLine(c, d, line) == Broken(MalformedFrame)
  {
    assert line[1..] == [] && line[..1] == line;
    assert Valid(line) && WithoutPrefix(line, BYTE_ORDER_MARK) == line && FirstColon(line) == 1;
    assert |ID| == 2 && |EVENT| == 5 && |DATA| == 4 && |RETRY| == 5;
  }
}
