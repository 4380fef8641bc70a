/** What the lines and frames of an event stream mean (section 9.2.6 of the WHATWG HTML Living Standard, with the run
    stream's own frame), told from the bytes, and that the decoder reads exactly that: which violation each malformed
    line and frame names, and that comments, `retry` fields and one byte order mark change nothing. */
module SseMeaning {
  import opened Wire
  import opened RunStreams
  import opened Utf8
  import opened Sse

  // ---------------------------------------------------------------- what a line means

  /** `line` is the field `name` with that value; one space after the colon belongs to neither. */
  predicate IsField(line: seq<Byte>, name: seq<Byte>, value: seq<Byte>) {
    && COLON !in name
    && (|| (line == name && value == [])
        || (line == name + [COLON] + value && (value == [] || value[0] != SPACE))
        || line == name + [COLON, SPACE] + value)
  }

  /** A line that says nothing: a comment, or the field `retry`. */
  ghost predicate SaysNothing(line: seq<Byte>) {
    && Valid(line)
    && ((line != [] && line[0] == COLON) || exists value :: IsField(line, RETRY, value))
  }

  /** A line that gives the frame its `id`, `event` or `data`. */
  predicate GivesField(line: seq<Byte>, name: seq<Byte>, value: seq<Byte>) {
    Valid(line) && name in {ID, EVENT, DATA} && IsField(line, name, value)
  }

  /** A line that is no text, or has a field the frame does not know. */
  ghost predicate IsMalformed(line: seq<Byte>) {
    line != [] && !SaysNothing(line) && forall name, value :: !GivesField(line, name, value)
  }

  function NameOf(line: seq<Byte>): seq<Byte> {
    line[..FirstColon(line)]
  }

  function ValueOf(line: seq<Byte>): seq<Byte> {
    var k := FirstColon(line);
    if k < |line| then WithoutPrefix(line[k + 1..], [SPACE]) else []
  }

  lemma {:induction false} FirstColonIsAt(name: seq<Byte>, rest: seq<Byte>)
    requires COLON !in name && (rest == [] || rest[0] == COLON)
    ensures FirstColon(name + rest) == |name|
  {
    if name == [] {
      assert name + rest == rest;
    } else {
      assert (name + rest)[0] == name[0] && name[0] in name && (name + rest)[1..] == name[1..] + rest;
      FirstColonIsAt(name[1..], rest);
    }
  }

  /** Every line is one field, and of one name and value only. */
  lemma ALineIsOneField(line: seq<Byte>)
    ensures IsField(line, NameOf(line), ValueOf(line))
    ensures forall name, value :: IsField(line, name, value) ==> name == NameOf(line) && value == ValueOf(line)
  {
    var k := FirstColon(line);
    var name := line[..k];
    assert COLON !in name;
    if k == |line| {
      assert line == name;
    } else {
      var rest := line[k + 1..];
      assert line == name + [COLON] + rest;
      if rest != [] && rest[0] == SPACE {
        assert [SPACE] <= rest && line == name + [COLON, SPACE] + rest[1..];
      }
    }
    forall n, v | IsField(line, n, v) ensures n == name && v == ValueOf(line) {
      OneNameAndValue(line, n, v);
    }
  }

  lemma OneNameAndValue(line: seq<Byte>, name: seq<Byte>, value: seq<Byte>)
    requires IsField(line, name, value)
    ensures name == NameOf(line) && value == ValueOf(line)
  {
    if line == name && value == [] {
      FirstColonIsAt(name, []);
      assert name + [] == line;
    } else {
      var rest := line[|name| + 1..];
      assert line == name + ([COLON] + rest);
      FirstColonIsAt(name, [COLON] + rest);
      if line == name + [COLON] + value && (value == [] || value[0] != SPACE) {
        assert rest == value;
      } else {
        assert rest == [SPACE] + value;
      }
    }
  }

  /** A line of its own does exactly what it means: nothing, a field of the frame, or the end as a malformed frame. */
  lemma ALineIsReadAsItMeans(c: Codec, d: Decoder, line: seq<Byte>)
    requires d.Open? && line != [] && !(d.firstLine && BYTE_ORDER_MARK <= line)
    ensures SaysNothing(line) ==> ReadLine(c, d, line) == (d.(firstLine := false), [])
    ensures forall name, value :: GivesField(line, name, value) ==>
              ReadLine(c, d, line) ==
              if name in d.fields then (BrokeContract, [Violation(MalformedFrame)])
              else (d.(firstLine := false, fields := d.fields[name := value]), [])
    ensures IsMalformed(line) ==> ReadLine(c, d, line) == (BrokeContract, [Violation(MalformedFrame)])
  {
    hide Valid, IsField, FirstColon, NameOf, ValueOf;
    ALineIsOneField(line);
    NamesDiffer();
    if line[0] == COLON {
      CommentsHaveNoName(line);
    }
    ReadingALine(c, d, line);
    hide ReadLine;
    assert IsMalformed(line) ==> !GivesField(line, NameOf(line), ValueOf(line));
    assert NameOf(line) == RETRY ==> IsField(line, RETRY, ValueOf(line));
  }

  lemma CommentsHaveNoName(line: seq<Byte>)
    requires line != [] && line[0] == COLON
    ensures NameOf(line) == []
  {
  }

  lemma ReadingALine(c: Codec, d: Decoder, line: seq<Byte>)
    requires d.Open? && line != [] && !(d.firstLine && BYTE_ORDER_MARK <= line)
    ensures ReadLine(c, d, line) ==
            if !Valid(line) then (BrokeContract, [Violation(MalformedFrame)])
            else if line[0] == COLON || NameOf(line) == RETRY then (d.(firstLine := false), [])
            else if NameOf(line) !in {ID, EVENT, DATA} || NameOf(line) in d.fields then (BrokeContract, [Violation(MalformedFrame)])
            else (d.(firstLine := false, fields := d.fields[NameOf(line) := ValueOf(line)]), [])
  {
    hide Valid, Dispatch, FirstColon;
  }

  lemma NamesDiffer()
    ensures RETRY !in {ID, EVENT, DATA} && [] !in {ID, EVENT, DATA, RETRY}
    ensures COLON !in ID && COLON !in EVENT && COLON !in DATA && COLON !in RETRY
  {
    assert |ID| == 2 && |EVENT| == 5 && |DATA| == 4 && |RETRY| == 5 && EVENT[0] != RETRY[0];
  }

  // ---------------------------------------------------------------- what a frame means

  /** The number a text of decimal digits reads as. */
  function NumberOf(text: seq<Byte>): int {
    if text == [] then 0 else 10 * NumberOf(text[..|text| - 1]) + (text[|text| - 1] as int - 48)
  }

  /** The id of a frame is the decimal text of its number, without a leading zero. */
  lemma {:induction false} TheIdIsTheNumber(n: nat)
    ensures NumberOf(Decimal(n)) == n
    ensures n > 0 ==> Decimal(n)[0] != 48
    ensures n == 0 ==> Decimal(n) == [48]
  {
    if n >= 10 {
      TheIdIsTheNumber(n / 10);
      var last: seq<Byte> := [48 + n % 10];
      assert (Decimal(n / 10) + last)[..|Decimal(n / 10)|] == Decimal(n / 10);
    } else {
      assert NumberOf(Decimal(n)[..0]) == 0;
    }
  }

  /** What a frame comes to: nothing, a violation, or an event. */
  datatype Verdict = Nothing | Names(kind: ViolationKind) | Gives(event: RunEvent)

  /** What the fields of a frame mean to a stream that promised `p`: the first thing that is wrong with them, in this
      order, or their event. */
  predicate FrameMeans(c: Codec, p: Promises, fields: map<seq<Byte>, seq<Byte>>, v: Verdict) {
    var complete := ID in fields && EVENT in fields && DATA in fields;
    if |fields| == 0 then v == Nothing
    else if !complete then v == Names(MalformedFrame)
    else match c.read(fields[DATA])
         case NotAJsonObject => v == Names(InvalidJson)
         case JsonObject(typeName, parsed) =>
           if typeName.None? || typeName.value != fields[EVENT] then v == Names(EventTypeMismatch)
           else match parsed
                case NotAnEvent(kind) => v == Names(kind)
                case AnEvent(e) =>
                  if fields[ID] != Decimal(e.seqNo) then v == Names(IdMismatch)
                  else match BrokenRule(p, e)
                       case Some(kind) => v == Names(kind)
                       case None => v == Gives(e)
  }

  /** What a verdict does to the decoder: an event is recorded and emitted, a violation ends the stream. */
  predicate Does(d: Decoder, v: Verdict, o: Outcome)
    requires d.Open?
  {
    match v
    case Nothing => o == (d, [])
    case Names(kind) => o == (BrokeContract, [Violation(kind)])
    case Gives(e) => o == (d.(stream := Recorded(d.stream, e)), [Item(e)])
  }

  /** A blank line ends the frame: the decoder does what its fields mean, and starts the next frame. */
  lemma ABlankLineEndsTheFrame(c: Codec, d: Decoder, v: Verdict)
    requires d.Open? && FrameMeans(c, d.stream, d.fields, v)
    ensures Does(d.(firstLine := false, fields := map[], frameBytes := 0), v, ReadLine(c, d, []))
  {
    hide BrokenRule, Recorded, Decimal;
    assert WithoutPrefix([], BYTE_ORDER_MARK) == [] by {
      assert |BYTE_ORDER_MARK| == 3;
    }
    if |d.fields| == 0 {
      assert d.fields == map[];
    }
  }

  // ---------------------------------------------------------------- a whole frame

  /** The lines of a frame: each says nothing or gives a field, and no field is given twice. */
  ghost predicate WellFormed(lines: seq<seq<Byte>>) {
    && (forall i :: 0 <= i < |lines| ==> lines[i] != [] && !IsMalformed(lines[i]))
    && forall i, j :: 0 <= i < j < |lines| ==> !SameField(lines[i], lines[j])
  }

  ghost predicate SameField(line: seq<Byte>, other: seq<Byte>) {
    exists name, value, value' :: GivesField(line, name, value) && GivesField(other, name, value')
  }

  /** The fields the lines give, and no others. */
  ghost predicate Collects(lines: seq<seq<Byte>>, fields: map<seq<Byte>, seq<Byte>>) {
    && (forall i, name, value :: 0 <= i < |lines| && GivesField(lines[i], name, value) ==> name in fields && fields[name] == value)
    && (forall name :: name in fields ==> exists i :: 0 <= i < |lines| && GivesField(lines[i], name, fields[name]))
  }

  /** How many bytes the lines count for, each with its line end. */
  function SizeOf(lines: seq<seq<Byte>>): nat {
    if lines == [] then 0 else SizeOf(lines[..|lines| - 1]) + |lines[|lines| - 1]| + 1
  }

  /** The decoder after lines of a frame that it began at `d`. */
  ghost predicate Holds(d: Decoder, lines: seq<seq<Byte>>, t: Decoder)
    requires d.Open?
  {
    && t.Open? && t == d.(firstLine := t.firstLine, frameBytes := d.frameBytes + SizeOf(lines), fields := t.fields)
    && (lines != [] || t.firstLine == d.firstLine) && (lines != [] ==> !t.firstLine)
    && Collects(lines, t.fields)
  }

  /** Lines read one after another, each counted first. */
  function ReadEach(c: Codec, d: Decoder, lines: seq<seq<Byte>>): Outcome {
    if lines == [] then (d, [])
    else
      var (t, items) := ReadEach(c, d, lines[..|lines| - 1]);
      if !t.Open? then (t, items)
      else
        var (u, more) := CountAndRead(c, t, lines[|lines| - 1]);
        (u, items + more)
  }

  predicate NoByteOrderMark(d: Decoder, lines: seq<seq<Byte>>)
    requires d.Open?
  {
    d.firstLine && lines != [] ==> !(BYTE_ORDER_MARK <= lines[0])
  }

  /** The lines of a frame up to its blank line: they give the frame its fields; the first one that is malformed or
      gives a field again ends the stream as a malformed frame. */
  lemma {:induction false} LinesGiveTheFrame(c: Codec, d: Decoder, lines: seq<seq<Byte>>)
    requires d.Open? && d.fields == map[] && NoByteOrderMark(d, lines)
    requires d.frameBytes + SizeOf(lines) <= MAX_EVENT_BYTES && forall i :: 0 <= i < |lines| ==> lines[i] != []
    ensures WellFormed(lines) ==> ReadEach(c, d, lines).1 == [] && Holds(d, lines, ReadEach(c, d, lines).0)
    ensures !WellFormed(lines) ==> ReadEach(c, d, lines) == (BrokeContract, [Violation(MalformedFrame)])
    decreases |lines|
  {
    hide ReadLine, Valid, IsField, IsMalformed, GivesField, SaysNothing, WellFormed, Collects;
    if lines == [] {
      NoLines();
    } else {
      var before, line := lines[..|lines| - 1], lines[|lines| - 1];
      assert lines == before + [line];
      LinesGiveTheFrame(c, d, before);
      WellFormedSoFar(before, line);
      var (t, items) := ReadEach(c, d, before);
      if WellFormed(before) {
        OneMoreLine(c, d, before, line, t);
        assert [] + CountAndRead(c, t, line).1 == CountAndRead(c, t, line).1;
      }
    }
  }

  lemma NoLines()
    ensures WellFormed([]) && Collects([], map[])
  {
  }

  lemma WellFormedSoFar(before: seq<seq<Byte>>, line: seq<Byte>)
    ensures WellFormed(before + [line]) <==>
              && WellFormed(before) && line != [] && !IsMalformed(line)
              && forall i :: 0 <= i < |before| ==> !SameField(before[i], line)
  {
    hide IsMalformed, SameField;
    var lines := before + [line];
    assert lines[|before|] == line && forall i :: 0 <= i < |before| ==> lines[i] == before[i];
  }

  lemma OneMoreLine(c: Codec, d: Decoder, before: seq<seq<Byte>>, line: seq<Byte>, t: Decoder)
    requires d.Open? && NoByteOrderMark(d, before + [line]) && Holds(d, before, t) && line != []
    requires t.frameBytes + |line| + 1 <= MAX_EVENT_BYTES
    ensures var (u, items) := CountAndRead(c, t, line);
            if IsMalformed(line) || exists i :: 0 <= i < |before| && SameField(before[i], line)
            then (u, items) == (BrokeContract, [Violation(MalformedFrame)])
            else items == [] && Holds(d, before + [line], u)
  {
    hide ReadLine, Valid, IsField, GivesField, SaysNothing, Collects, SameField, IsMalformed, SizeOf;
    SizeOfOneMore(before, line);
    ALineIsReadAsItMeans(c, t.(frameBytes := t.frameBytes + |line| + 1), line);
    if SaysNothing(line) {
      SayingNothingGivesNothing(before, line, t.fields);
    } else if !IsMalformed(line) {
      var (name, value) := TheField(line);
      FieldsGrow(before, line, name, value, t.fields);
    }
  }

  /** The field a line gives that is not malformed and does not say nothing. */
  ghost function TheField(line: seq<Byte>): (field: (seq<Byte>, seq<Byte>))
    requires line != [] && !IsMalformed(line) && !SaysNothing(line)
    ensures GivesField(line, field.0, field.1)
  {
    var name, value :| GivesField(line, name, value);
    (name, value)
  }

  lemma SizeOfOneMore(before: seq<seq<Byte>>, line: seq<Byte>)
    ensures SizeOf(before + [line]) == SizeOf(before) + |line| + 1
  {
    assert (before + [line])[..|before|] == before;
  }

  lemma SayingNothingGivesNothing(before: seq<seq<Byte>>, line: seq<Byte>, fields: map<seq<Byte>, seq<Byte>>)
    requires SaysNothing(line) && Collects(before, fields)
    ensures !IsMalformed(line)
    ensures forall i :: 0 <= i < |before| ==> !SameField(before[i], line)
    ensures Collects(before + [line], fields)
  {
    ItGivesNothing(line);
    hide Valid, IsField, GivesField;
    var lines := before + [line];
    assert lines[|before|] == line && forall i :: 0 <= i < |before| ==> lines[i] == before[i];
    forall name | name in fields ensures exists i :: 0 <= i < |lines| && GivesField(lines[i], name, fields[name]) {
      var i :| 0 <= i < |before| && GivesField(before[i], name, fields[name]);
      assert lines[i] == before[i];
    }
  }

  lemma ItGivesNothing(line: seq<Byte>)
    requires SaysNothing(line)
    ensures forall name, value :: !GivesField(line, name, value)
  {
    hide Valid;
    ALineIsOneField(line);
    NamesDiffer();
    if line != [] && line[0] == COLON {
      assert NameOf(line) == [];
    }
  }

  /** A field that is given for the first time joins the others; one that was given before is the same field again. */
  lemma FieldsGrow(before: seq<seq<Byte>>, line: seq<Byte>, name: seq<Byte>, value: seq<Byte>, fields: map<seq<Byte>, seq<Byte>>)
    requires Collects(before, fields) && GivesField(line, name, value)
    ensures name in fields <==> exists i :: 0 <= i < |before| && SameField(before[i], line)
    ensures name !in fields ==> Collects(before + [line], fields[name := value])
    ensures !IsMalformed(line)
  {
    hide Valid, IsField, GivesField, IsMalformed;
    OneFieldOnly(line, name, value);
    if name in fields {
      var i :| 0 <= i < |before| && GivesField(before[i], name, fields[name]);
      assert SameField(before[i], line);
    } else {
      OneMoreField(before, line, name, value, fields);
    }
  }

  lemma OneFieldOnly(line: seq<Byte>, name: seq<Byte>, value: seq<Byte>)
    requires GivesField(line, name, value)
    ensures !IsMalformed(line)
    ensures forall n, v :: GivesField(line, n, v) ==> n == name && v == value
  {
    hide Valid, IsField, SaysNothing;
    ALineIsOneField(line);
  }

  lemma OneMoreField(before: seq<seq<Byte>>, line: seq<Byte>, name: seq<Byte>, value: seq<Byte>, fields: map<seq<Byte>, seq<Byte>>)
    requires Collects(before, fields) && GivesField(line, name, value) && name !in fields
    requires forall n, v :: GivesField(line, n, v) ==> n == name && v == value
    ensures Collects(before + [line], fields[name := value])
  {
    hide GivesField;
    var lines, more := before + [line], fields[name := value];
    assert lines[|before|] == line && forall i :: 0 <= i < |before| ==> lines[i] == before[i];
    forall n | n in more ensures exists i :: 0 <= i < |lines| && GivesField(lines[i], n, more[n]) {
      if n == name {
        assert GivesField(lines[|before|], n, more[n]);
      } else {
        var i :| 0 <= i < |before| && GivesField(before[i], n, fields[n]);
        assert GivesField(lines[i], n, more[n]);
      }
    }
  }

  /** A whole frame, whatever its lines: malformed lines end the stream, and otherwise it does what its fields mean. */
  lemma AFrameIsReadAsItMeans(c: Codec, d: Decoder, lines: seq<seq<Byte>>, fields: map<seq<Byte>, seq<Byte>>, v: Verdict)
    requires d.Open? && d.fields == map[] && NoByteOrderMark(d, lines)
    requires d.frameBytes + SizeOf(lines) + 1 <= MAX_EVENT_BYTES && forall i :: 0 <= i < |lines| ==> lines[i] != []
    requires WellFormed(lines) ==> Collects(lines, fields) && FrameMeans(c, d.stream, fields, v)
    ensures if WellFormed(lines) then Does(d.(firstLine := false, frameBytes := 0), v, ReadEach(c, d, lines + [[]]))
            else ReadEach(c, d, lines + [[]]) == (BrokeContract, [Violation(MalformedFrame)])
  {
    hide ReadLine, WellFormed, Collects, FrameMeans, ReadEach, NoByteOrderMark, SizeOf, Does;
    LinesGiveTheFrame(c, d, lines);
    OneMoreRead(c, d, lines, []);
    if WellFormed(lines) {
      var t := ReadEach(c, d, lines).0;
      OnlyTheseFields(lines, fields, t.fields);
      var u := t.(frameBytes := t.frameBytes + 1);
      ABlankLineEndsTheFrame(c, u, v);
      assert u.(firstLine := false, fields := map[], frameBytes := 0) == d.(firstLine := false, frameBytes := 0);
    }
  }

  lemma OneMoreRead(c: Codec, d: Decoder, lines: seq<seq<Byte>>, line: seq<Byte>)
    ensures var (t, items) := ReadEach(c, d, lines);
            && (!t.Open? ==> ReadEach(c, d, lines + [line]) == (t, items))
            && (t.Open? && items == [] ==> ReadEach(c, d, lines + [line]) == CountAndRead(c, t, line))
  {
    hide CountAndRead;
    assert (lines + [line])[..|lines|] == lines;
    var t := ReadEach(c, d, lines).0;
    if t.Open? {
      assert [] + CountAndRead(c, t, line).1 == CountAndRead(c, t, line).1;
    }
  }

  lemma OnlyTheseFields(lines: seq<seq<Byte>>, fields: map<seq<Byte>, seq<Byte>>, others: map<seq<Byte>, seq<Byte>>)
    requires Collects(lines, fields) && Collects(lines, others)
    ensures fields == others
  {
    hide GivesField;
  }

  lemma {:induction false} LinesAreReadInTurn(c: Codec, d: Decoder, lines: seq<seq<Byte>>, more: seq<seq<Byte>>, rest: seq<Byte>)
    ensures var (t, items) := ReadEach(c, d, lines);
            var (u, others) := ReadLines(c, t, more, rest, false);
            ReadLines(c, d, lines + more, rest, false) == (u, items + others)
    decreases |lines|
  {
    hide CountAndRead;
    var (t, items) := ReadEach(c, d, lines);
    var (u, others) := ReadLines(c, t, more, rest, false);
    if lines == [] {
      assert lines + more == more && items + others == others;
    } else {
      var before, line := lines[..|lines| - 1], lines[|lines| - 1];
      assert lines + more == before + ([line] + more);
      assert ([line] + more)[0] == line && ([line] + more)[1..] == more;
      LinesAreReadInTurn(c, d, before, [line] + more, rest);
      var (held, first) := ReadEach(c, d, before);
      if held.Open? {
        var (next, second) := CountAndRead(c, held, line);
        assert first + (second + others) == (first + second) + others;
      } else {
        assert first + [] == first;
      }
    }
  }

  /** A frame as bytes, with any line ends, and however it is fed: it does what its lines mean. */
  lemma TheBytesOfAFrameAreReadAsTheyMean(c: Codec, d: Decoder, chunks: seq<seq<Byte>>, lines: seq<seq<Byte>>,
                                          fields: map<seq<Byte>, seq<Byte>>, v: Verdict)
    requires BetweenLines(d) && d.fields == map[] && NoByteOrderMark(d, lines)
    requires Lines(Concat(chunks)) == (lines + [[]], []) && !EndsInCarriageReturn(Concat(chunks))
    requires d.frameBytes + SizeOf(lines) + 1 <= MAX_EVENT_BYTES && forall i :: 0 <= i < |lines| ==> lines[i] != []
    requires WellFormed(lines) ==> Collects(lines, fields) && FrameMeans(c, d.stream, fields, v)
    ensures if WellFormed(lines) then Does(d.(firstLine := false, frameBytes := 0), v, RunChunks(c, d, chunks))
            else RunChunks(c, d, chunks) == (BrokeContract, [Violation(MalformedFrame)])
  {
    hide ReadLine, WellFormed, Collects, FrameMeans, Lines, Run, NoByteOrderMark;
    var s := Concat(chunks);
    ChunksReadAsOneStream(c, d, chunks);
    BytesReadAsLines(c, d, s);
    AFrameIsReadAsItMeans(c, d, lines, fields, v);
    LinesAreReadInTurn(c, d, lines + [[]], [], []);
    assert (lines + [[]]) + [] == lines + [[]];
    var (t, items) := ReadEach(c, d, lines + [[]]);
    assert items + [] == items;
  }

  // ---------------------------------------------------------------- what changes nothing

  /** Two decoders that will read on alike: the first one has counted at least as much, and they may differ in a byte
      order mark that was seen, or can no longer come, at the start of the stream. */
  ghost predicate Alike(d1: Decoder, d2: Decoder, rest: seq<Byte>) {
    && d1.Open? && d2.Open?
    && d1.stream == d2.stream && d1.fields == d2.fields && d1.lineFeedMayFollow == d2.lineFeedMayFollow
    && d1.frameBytes + |d1.unfinished| >= d2.frameBytes + |d2.unfinished|
    && (d1.firstLine != d2.firstLine || d1.unfinished != d2.unfinished ==> !(BYTE_ORDER_MARK <= d2.unfinished + rest))
    && (d2.lineFeedMayFollow ==> d1.firstLine == d2.firstLine && d1.unfinished == d2.unfinished)
    && (d1.unfinished == d2.unfinished
        || (d1.firstLine && d2.firstLine && d1.unfinished == BYTE_ORDER_MARK + d2.unfinished))
  }

  /** The same was read, and the stream closes alike. */
  predicate SameReading(o1: Outcome, o2: Outcome) {
    o1.1 == o2.1 && (o1.0.Open? <==> o2.0.Open?) && CloseItems(o1.0) == CloseItems(o2.0)
  }

  /** The first stream ends where a frame of it became too large; until then the same was read. */
  predicate EndsOversized(o1: Outcome, o2: Outcome) {
    o1.0.BrokeContract? && o1.1 != [] && o1.1[|o1.1| - 1] == Violation(OversizedFrame) && o1.1[..|o1.1| - 1] <= o2.1
  }

  /** Nothing but the size that was counted differs. */
  predicate SameButForTheSize(o1: Outcome, o2: Outcome) {
    SameReading(o1, o2) || EndsOversized(o1, o2)
  }

  /** A complete line, read by two decoders that differ in what was said. */
  lemma SameLineSameReading(c: Codec, d1: Decoder, d2: Decoder, line1: seq<Byte>, line2: seq<Byte>)
    requires d1.Open? && d2.Open? && d1.frameBytes >= d2.frameBytes
    requires d1 == d2.(frameBytes := d1.frameBytes, firstLine := d1.firstLine)
    requires (if d1.firstLine then WithoutPrefix(line1, BYTE_ORDER_MARK) else line1)
          == (if d2.firstLine then WithoutPrefix(line2, BYTE_ORDER_MARK) else line2)
    ensures var ((t1, items1), (t2, items2)) := (ReadLine(c, d1, line1), ReadLine(c, d2, line2));
            && items1 == items2 && !t1.Ended? && !t2.Ended? && (t1.Open? <==> t2.Open?)
            && (t1.Open? ==> t1 == t2.(frameBytes := t1.frameBytes) && t1.frameBytes >= t2.frameBytes && !t1.firstLine
                             && t1.unfinished == d1.unfinished)
  {
    hide Valid, BrokenRule, Recorded, Decimal, FirstColon, WithoutPrefix;
  }

  lemma SameText(d1: Decoder, d2: Decoder, rest: seq<Byte>)
    requires Alike(d1, d2, rest)
    ensures (if d1.firstLine then WithoutPrefix(d1.unfinished, BYTE_ORDER_MARK) else d1.unfinished)
         == (if d2.firstLine then WithoutPrefix(d2.unfinished, BYTE_ORDER_MARK) else d2.unfinished)
  {
    if d1.firstLine != d2.firstLine || d1.unfinished != d2.unfinished {
      assert (BYTE_ORDER_MARK + d2.unfinished)[3..] == d2.unfinished;
    }
  }

  lemma StepsStayAlike(c: Codec, d1: Decoder, d2: Decoder, b: Byte, rest: seq<Byte>)
    requires Alike(d1, d2, [b] + rest)
    ensures var ((t1, items1), (t2, items2)) := (Step(c, d1, b), Step(c, d2, b));
            || (t1, items1) == (BrokeContract, [Violation(OversizedFrame)])
            || (items1 == items2 && (Alike(t1, t2, rest) || (t1.BrokeContract? && t2.BrokeContract?)))
  {
    hide ReadLine, WithoutPrefix;
    assert d2.unfinished + ([b] + rest) == (d2.unfinished + [b]) + rest;
    if (b == LF && d1.lineFeedMayFollow) || ExceedsLimit(d1, 1) {
    } else if LineEnd(b) {
      SameText(d1, d2, [b] + rest);
      SameLineSameReading(c, Counted(d1), Counted(d2), d1.unfinished, d2.unfinished);
    } else if d1.unfinished != d2.unfinished {
      assert BYTE_ORDER_MARK + d2.unfinished + [b] == BYTE_ORDER_MARK + (d2.unfinished + [b]);
    }
  }

  /** The decoder that has counted its unfinished line and reads it. */
  function Counted(d: Decoder): Decoder
    requires d.Open?
  {
    d.(lineFeedMayFollow := false, unfinished := [], frameBytes := d.frameBytes + |d.unfinished| + 1)
  }

  lemma {:induction false} AlikeReadAlike(c: Codec, d1: Decoder, d2: Decoder, s: seq<Byte>)
    requires Alike(d1, d2, s)
    ensures SameButForTheSize(Run(c, d1, s), Run(c, d2, s))
    decreases |s|
  {
    hide Step;
    if s != [] {
      assert [s[0]] + s[1..] == s;
      StepsStayAlike(c, d1, d2, s[0], s[1..]);
      hide Alike;
      var ((t1, items1), (t2, items2)) := (Step(c, d1, s[0]), Step(c, d2, s[0]));
      var (o1, o2) := (Run(c, t1, s[1..]), Run(c, t2, s[1..]));
      if items1 == items2 && Alike(t1, t2, s[1..]) {
        AlikeReadAlike(c, t1, t2, s[1..]);
        MoreOfTheSame(items1, o1, o2);
      } else {
        RunClosed(c, t1, s[1..]);
        assert items1 + [] == items1 && items2 + [] == items2;
        if t2.BrokeContract? {
          RunClosed(c, t2, s[1..]);
        }
      }
    }
  }

  lemma MoreOfTheSame(items: seq<Decoded>, o1: Outcome, o2: Outcome)
    requires SameButForTheSize(o1, o2)
    ensures SameButForTheSize((o1.0, items + o1.1), (o2.0, items + o2.1))
  {
    if EndsOversized(o1, o2) {
      assert (items + o1.1)[..|items + o1.1| - 1] == items + o1.1[..|o1.1| - 1];
    }
  }

  // ---------------------------------------------------------------- comments, retry and the byte order mark

  predicate AtLineStart(s: seq<Byte>) {
    s == [] || LineEnd(s[|s| - 1])
  }

  predicate IsLineEnd(end: seq<Byte>) {
    end == [LF] || end == [CR] || end == [CR, LF]
  }

  /** `b` goes on after the line end of `a`: it is not the second half of it. */
  predicate GoesOn(a: seq<Byte>, b: seq<Byte>) {
    !(EndsInCarriageReturn(a) && b != [] && b[0] == LF)
  }

  /** Between two lines: nothing is held, and after the first line a byte order mark means nothing. */
  predicate AtRest(d: Decoder) {
    d.Open? ==> d.unfinished == [] && !d.firstLine
  }

  predicate FollowsOnlyLines(d: Decoder) {
    d.Open? && d.lineFeedMayFollow ==> d.unfinished == [] && !d.firstLine
  }

  lemma AStepRests(c: Codec, d: Decoder, b: Byte)
    requires d.Open? && FollowsOnlyLines(d)
    ensures FollowsOnlyLines(Step(c, d, b).0)
    ensures LineEnd(b) ==> AtRest(Step(c, d, b).0)
    ensures Step(c, d, b).0.Open? && Step(c, d, b).0.lineFeedMayFollow ==> b == CR
  {
    hide Valid, BrokenRule, Recorded, Decimal, FirstColon, WithoutPrefix;
  }

  lemma {:induction false} RunsRest(c: Codec, s: seq<Byte>)
    ensures var d := Run(c, START, s).0;
            && FollowsOnlyLines(d) && (s != [] && LineEnd(s[|s| - 1]) ==> AtRest(d))
            && (d.Open? && d.lineFeedMayFollow ==> EndsInCarriageReturn(s))
  {
    hide Step;
    if s != [] {
      var before, b := s[..|s| - 1], s[|s| - 1];
      assert s == before + [b];
      RunsRest(c, before);
      RunAppend(c, START, before, [b]);
      var d := Run(c, START, before).0;
      if d.Open? {
        RunOne(c, d, b);
        AStepRests(c, d, b);
      } else {
        RunClosed(c, d, [b]);
      }
    }
  }

  /** A whole line that says nothing, read between two lines: only its size is counted. */
  lemma ALineThatSaysNothingIsCounted(c: Codec, d: Decoder, line: seq<Byte>, end: seq<Byte>)
    requires d.Open? && d.unfinished == [] && OneLine(line) && SaysNothing(line) && IsLineEnd(end)
    requires !(BYTE_ORDER_MARK <= line)
    ensures Run(c, d, line + end) ==
            if d.frameBytes + |line| + 1 > MAX_EVENT_BYTES then (BrokeContract, [Violation(OversizedFrame)])
            else (d.(firstLine := false, frameBytes := d.frameBytes + |line| + 1, lineFeedMayFollow := end == [CR]), [])
  {
    hide ReadLine, Run, Step, SaysNothing;
    ItIsNotBlank(line);
    RunLine(c, d, line, end[0]);
    assert d.unfinished + line == line;
    ALineIsReadAsItMeans(c, d.(lineFeedMayFollow := false, frameBytes := d.frameBytes + |line| + 1), line);
    if end == [CR, LF] {
      assert line + end == (line + [CR]) + [LF];
      RunAppend(c, d, line + [CR], [LF]);
      var (t, items) := Run(c, d, line + [CR]);
      assert items + [] == items;
      if t.Open? {
        RunOne(c, t, LF);
        LineFeedsAreSkipped(c, t);
      } else {
        RunClosed(c, t, [LF]);
      }
    } else {
      assert end == [end[0]];
    }
  }

  lemma LineFeedsAreSkipped(c: Codec, d: Decoder)
    requires d.Open? && d.lineFeedMayFollow
    ensures Step(c, d, LF) == (d.(lineFeedMayFollow := false), [])
  {
  }

  lemma ItIsNotBlank(line: seq<Byte>)
    requires SaysNothing(line)
    ensures line != []
  {
    assert |RETRY| == 5;
  }

  lemma ItHasNoByteOrderMark(line: seq<Byte>)
    requires SaysNothing(line)
    ensures !(BYTE_ORDER_MARK <= line)
  {
    hide Valid;
    NamesDiffer();
    assert RETRY[0] == 114 && |RETRY| == 5;
    if line[0] != COLON {
      var value :| IsField(line, RETRY, value);
      assert line[0] == RETRY[0];
    }
  }

  /** What follows a line end is read alike whether or not a line feed was still expected. */
  lemma ExpectingNothing(c: Codec, d: Decoder, b: seq<Byte>)
    requires d.Open? && (d.lineFeedMayFollow && b != [] ==> b[0] != LF)
    ensures SameReading(Run(c, d, b), Run(c, d.(lineFeedMayFollow := false), b))
  {
    hide Step;
    if b != [] && d.lineFeedMayFollow {
      RunAfterCarriageReturn(c, d, b);
    } else if !d.lineFeedMayFollow {
      assert d.(lineFeedMayFollow := false) == d;
    }
  }

  lemma SizeIsAllThatDiffers(o1: Outcome, o2: Outcome, o3: Outcome, o4: Outcome)
    requires SameReading(o1, o2) && SameButForTheSize(o2, o3) && SameReading(o4, o3)
    requires !o1.0.Ended? && !o2.0.Ended?
    ensures SameButForTheSize(o1, o4)
  {
  }

  lemma NothingEnds(c: Codec, d: Decoder, s: seq<Byte>)
    requires d.Open?
    ensures !Run(c, d, s).0.Ended?
  {
    hide Run;
    AViolationIsLastAndCloses(c, d, s);
  }

  /** After the inserted line the rest of the stream is read as without it. */
  lemma TheRestIsReadTheSame(c: Codec, d: Decoder, line: seq<Byte>, end: seq<Byte>, b: seq<Byte>)
    requires d.Open? && d.unfinished == [] && OneLine(line) && SaysNothing(line) && IsLineEnd(end)
    requires (d.lineFeedMayFollow || end == [CR]) && b != [] ==> b[0] != LF
    requires d.firstLine ==> !(BYTE_ORDER_MARK <= b)
    ensures SameButForTheSize(Run(c, d, line + end + b), Run(c, d, b))
  {
    hide Run, SaysNothing;
    ItHasNoByteOrderMark(line);
    ALineThatSaysNothingIsCounted(c, d, line, end);
    RunAppend(c, d, line + end, b);
    var (t, items) := Run(c, d, line + end);
    if t.Open? {
      var d1, d2 := t.(lineFeedMayFollow := false), d.(lineFeedMayFollow := false);
      assert [] + b == b;
      AlikeReadAlike(c, d1, d2, b);
      ExpectingNothing(c, t, b);
      ExpectingNothing(c, d, b);
      NothingEnds(c, t, b);
      NothingEnds(c, d1, b);
      assert [] + Run(c, t, b).1 == Run(c, t, b).1;
      SizeIsAllThatDiffers(Run(c, t, b), Run(c, d1, b), Run(c, d2, b), Run(c, d, b));
    } else {
      RunClosed(c, t, b);
      assert items + [] == items;
    }
  }

  /** A comment or a `retry` field, with any line end, put before any line of any stream changes nothing that is read
      but the size that is counted: the same items and the same close, unless a frame becomes too large. */
  lemma CommentsAndRetryChangeNothing(c: Codec, a: seq<Byte>, line: seq<Byte>, end: seq<Byte>, b: seq<Byte>)
    requires OneLine(line) && SaysNothing(line) && IsLineEnd(end)
    requires AtLineStart(a) && GoesOn(a, b) && GoesOn(end, b) && (a == [] ==> !(BYTE_ORDER_MARK <= b))
    ensures SameButForTheSize(Run(c, START, a + line + end + b), Run(c, START, a + b))
  {
    hide Run, SaysNothing;
    var d := Run(c, START, a).0;
    var items := Run(c, START, a).1;
    RunsRest(c, a);
    RunAppend(c, START, a, b);
    assert a + line + end + b == a + (line + end + b);
    RunAppend(c, START, a, line + end + b);
    if d.Open? {
      StartsOut(c, a);
      TheRestIsReadTheSame(c, d, line, end, b);
      MoreOfTheSame(items, Run(c, d, line + end + b), Run(c, d, b));
    } else {
      RunClosed(c, d, b);
      RunClosed(c, d, line + end + b);
    }
  }

  lemma StartsOut(c: Codec, a: seq<Byte>)
    ensures a == [] ==> Run(c, START, a) == (START, [])
  {
  }

  /** One byte order mark at the start of a stream that has none changes nothing that is read but the size counted. */
  lemma AByteOrderMarkChangesNothing(c: Codec, s: seq<Byte>)
    requires !(BYTE_ORDER_MARK <= s)
    ensures SameButForTheSize(Run(c, START, BYTE_ORDER_MARK + s), Run(c, START, s))
  {
    hide Run, Step;
    RunAppend(c, START, BYTE_ORDER_MARK, s);
    assert OneLine(BYTE_ORDER_MARK) && |BYTE_ORDER_MARK| == 3;
    RunSegment(c, START, BYTE_ORDER_MARK);
    var d := START.(unfinished := BYTE_ORDER_MARK);
    assert [] + BYTE_ORDER_MARK == BYTE_ORDER_MARK && BYTE_ORDER_MARK + [] == BYTE_ORDER_MARK && [] + s == s;
    AlikeReadAlike(c, d, START, s);
    assert [] + Run(c, d, s).1 == Run(c, d, s).1;
  }

  /** A line that would make its frame larger than one mebibyte ends the stream, finished or not. */
  lemma TooManyBytesOfAFrameAreRefused(c: Codec, d: Decoder, line: seq<Byte>, end: Byte)
    requires d.Open? && d.unfinished == [] && !d.lineFeedMayFollow && OneLine(line) && LineEnd(end)
    ensures d.frameBytes + |line| + 1 > 1024 * 1024 ==> Run(c, d, line + [end]) == (BrokeContract, [Violation(OversizedFrame)])
    ensures line != [] ==>
              Run(c, d, line) == if d.frameBytes + |line| > 1024 * 1024 then (BrokeContract, [Violation(OversizedFrame)])
                                 else (d.(unfinished := line), [])
  {
    hide Step, FinishLine;
    RunLine(c, d, line, end);
    if line != [] {
      RunSegment(c, d, line);
      assert [] + line == line;
    }
  }
}
