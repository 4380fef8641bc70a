/** Finding and validating the one call of a text block (src/agent_runtime/text_tool_protocol.py:131-139,
    304-467): the block's end is derived from its JSON value, never from a delimiter. */
module TextToolCalls {
  import opened Wire
  import opened MarkdownFences
  import opened TextToolStream
  import opened JsonText
  import Sound = JsonTextSound

  datatype Rule = CallNotJson | CloseTagNotAfterCall | TextAfterCall | SecondCall | NotACallObject | UnknownTool | ArgumentsOffSchema

  const EXCERPT_RADIUS := 512

  datatype Rejection = Rejection(rule: Rule, offset: nat, length: nat, excerptStart: nat, excerpt: string)

  type Arguments = map<Points, Json>

  datatype Parsed = Call(name: Points, arguments: Arguments) | FinalText(text: string) | Refused(rejection: Rejection)

  datatype Boundary = Found(payload: Json, valueStart: nat, callEnd: nat) | NotFound(rejection: Rejection)

  /** The host's tools: the tags' namespace, which tools exist and which arguments each accepts. */
  datatype Catalog = Catalog(ns: string, declared: Points -> bool, accepts: (Points, Arguments) -> bool)

  /** The interpreter: how deep its JSON decoder goes, and where it says a text is broken. */
  datatype Interpreter = Interpreter(depth: nat, brokenAt: string -> int)

  function CloseTag(ns: string): string {
    "</" + ns + "_tool_call>"
  }

  function Ascii(s: string): (points: Points) {
    seq(|s|, i requires 0 <= i < |s| => s[i] as int)
  }

  const NAME := Ascii("name")
  const ARGUMENTS := Ascii("arguments")

  function Stripped(s: string): string
    decreases |s|
  {
    if s != "" && Space(s[0]) then Stripped(s[1..])
    else if s != "" && Space(s[|s| - 1]) then Stripped(s[..|s| - 1])
    else s
  }

  function StrippedLeft(s: string): string {
    if s != "" && Space(s[0]) then StrippedLeft(s[1..]) else s
  }

  function Min(a: int, b: int): int {
    if a <= b then a else b
  }

  function Max(a: int, b: int): int {
    if a >= b then a else b
  }

  function Refuse(rule: Rule, block: string, offset: int): (r: Rejection) {
    var length := |block|;
    var at := Min(Max(offset, 0), length);
    var start := Max(0, at - EXCERPT_RADIUS);
    var end := Min(length, at + EXCERPT_RADIUS);
    Rejection(rule, at, length, start, block[start..end])
  }

  function OpeningLineLength(ns: string, block: string): (n: Option<nat>)
    ensures n.Some? ==> n.value <= |block|
  {
    if OpeningCrlf(ns) <= block then Some(|OpeningCrlf(ns)|)
    else if OpeningLf(ns) <= block then Some(|OpeningLf(ns)|)
    else None
  }

  /** One JSON value right after the opening line, and the close tag right after the value. */
  function FirstJsonBoundary(ns: string, i: Interpreter, block: string, openingLength: nat): (b: Boundary)
    requires openingLength <= |block|
    ensures b.Found? ==> openingLength <= b.valueStart < b.callEnd <= |block|
  {
    var value := SkipGap(block[openingLength..]);
    match ReadValue(i.depth, value)
    case Malformed => NotFound(Refuse(CallNotJson, block, i.brokenAt(block)))
    case Ok(payload, rest) =>
      var close := SkipGap(rest);
      if CloseTag(ns) <= close then Found(payload, |block| - |value|, |block| - |close| + |CloseTag(ns)|)
      else NotFound(Refuse(CloseTagNotAfterCall, block, |block| - |close|))
  }

  function BoundaryOf(ns: string, i: Interpreter, block: string): (b: Boundary)
    ensures b.Found? ==> b.valueStart < b.callEnd <= |block|
  {
    match OpeningLineLength(ns, block)
    case None => NotFound(Refuse(CallNotJson, block, |block|))
    case Some(n) => FirstJsonBoundary(ns, i, block, n)
  }

  function ValidatedCall(c: Catalog, block: string, b: Boundary): Parsed
    requires b.Found?
  {
    var at := b.valueStart;
    if !(b.payload.Object? && b.payload.fields.Keys == {NAME, ARGUMENTS}) then Refused(Refuse(NotACallObject, block, at))
    else
      var name, arguments := b.payload.fields[NAME], b.payload.fields[ARGUMENTS];
      if !(name.Str? && arguments.Object?) then Refused(Refuse(NotACallObject, block, at))
      else if !c.declared(name.points) then Refused(Refuse(UnknownTool, block, at))
      else if !c.accepts(name.points, arguments.fields) then Refused(Refuse(ArgumentsOffSchema, block, at))
      else Call(name.points, arguments.fields)
  }

  /** The one call a one-shot block must hold and nothing else. */
  function ParseCall(c: Catalog, i: Interpreter, block: string): Parsed {
    match BoundaryOf(c.ns, i, block)
    case NotFound(rejection) => Refused(rejection)
    case Found(payload, valueStart, callEnd) =>
      if callEnd < |block| then Refused(Refuse(TextAfterCall, block, callEnd))
      else ValidatedCall(c, block, Found(payload, valueStart, callEnd))
  }

  function ParseResponse(c: Catalog, i: Interpreter, response: string): Parsed {
    if HasOpeningLine(c.ns, StrippedLeft(response)) then ParseCall(c, i, Stripped(response)) else FinalText(response)
  }

  /** The first call of a streamed block; text after it is dropped unless it opens a second call. */
  function ParseStreamedBlock(c: Catalog, i: Interpreter, block: string): Parsed {
    match BoundaryOf(c.ns, i, block)
    case NotFound(rejection) => Refused(rejection)
    case Found(payload, valueStart, callEnd) =>
      var second := OpeningLineStart(c.ns, NEW_PARSER, block[callEnd..], 0);
      if second.Some? then Refused(Refuse(SecondCall, block, callEnd + second.value))
      else ValidatedCall(c, block, Found(payload, valueStart, callEnd))
  }

  /** What a finished stream comes to. */
  function Finished(c: Catalog, i: Interpreter, s: Parser): Parsed {
    if s.callBuffer.None? then FinalText(s.candidate) else ParseStreamedBlock(c, i, Stripped(s.callBuffer.value))
  }

  // ---------------------------------------------------------------- the call's own text decides

  /** A block: its opening line, one text of the grammar, the close tag, and whatever follows. */
  datatype Shape = Shape(opening: string, before: string, text: Text, after: string, tail: string)

  predicate ShapeFits(ns: string, i: Interpreter, sh: Shape) {
    && (sh.opening == OpeningLf(ns) || sh.opening == OpeningCrlf(ns))
    && AllGap(sh.before) && AllGap(sh.after) && Fits(i.depth, sh.text)
  }

  function BlockOf(ns: string, sh: Shape): string {
    sh.opening + (sh.before + Written(sh.text, sh.after + (CloseTag(ns) + sh.tail)))
  }

  lemma CloseTagEndsANumber(ns: string, after: string, tail: string)
    requires AllGap(after)
    ensures NumberEnds(after + (CloseTag(ns) + tail))
    ensures SkipGap(after + (CloseTag(ns) + tail)) == CloseTag(ns) + tail
  {
    var close := CloseTag(ns) + tail;
    assert close[0] == '<';
    GapIsSkipped(after, close);
    if after == "" {
      assert after + close == close;
    } else {
      assert (after + close)[0] == after[0];
    }
  }

  lemma OneOpeningOnly(ns: string, opening: string, rest: string)
    requires opening == OpeningLf(ns) || opening == OpeningCrlf(ns)
    ensures OpeningLineLength(ns, opening + rest) == Some(|opening|)
  {
    var lf, crlf := OpeningLf(ns) + rest, OpeningCrlf(ns);
    assert lf[|OpenTag(ns)|] == '\n' && crlf[|OpenTag(ns)|] == '\r';
  }

  lemma BoundaryReads(ns: string, i: Interpreter, block: string, n: nat, value: string, payload: Json, rest: string)
    requires n <= |block| && value == SkipGap(block[n..]) && ReadValue(i.depth, value) == Ok(payload, rest)
    requires CloseTag(ns) <= SkipGap(rest)
    ensures FirstJsonBoundary(ns, i, block, n)
            == Found(payload, |block| - |value|, |block| - |SkipGap(rest)| + |CloseTag(ns)|)
  {
    hide ReadValue, SkipGap, CloseTag;
  }

  lemma BoundaryOfOpened(ns: string, i: Interpreter, block: string, n: nat)
    requires OpeningLineLength(ns, block) == Some(n)
    ensures n <= |block| && BoundaryOf(ns, i, block) == FirstJsonBoundary(ns, i, block, n)
  {
  }

  /** The opening line, any gap, any text of the grammar, any gap and the close tag, whatever follows and
      whatever the strings of the text hold: exactly that value is found, and the index after the tag. */
  lemma TheCallIsFound(ns: string, i: Interpreter, sh: Shape)
    requires ShapeFits(ns, i, sh)
    ensures var block := BlockOf(ns, sh);
            |sh.tail| <= |block| &&
            BoundaryOf(ns, i, block)
            == Found(Value(i.depth, sh.text), |sh.opening| + |sh.before|, |block| - |sh.tail|)
  {
    hide ReadValue, SkipGap, CloseTag, Written, Fits, AllGap, OpeningLineLength, OpeningLf, OpeningCrlf, FirstJsonBoundary,
         BoundaryOf, Value;
    var close := CloseTag(ns) + sh.tail;
    var value := Written(sh.text, sh.after + close);
    var rest := sh.before + value;
    TheValueIsRead(ns, i, sh);
    OneOpeningOnly(ns, sh.opening, rest);
    BoundaryOfOpened(ns, i, sh.opening + rest, |sh.opening|);
    BlockReads(ns, i, sh.opening, sh.before, value, Value(i.depth, sh.text), sh.after + close, close);
  }

  lemma TheValueIsRead(ns: string, i: Interpreter, sh: Shape)
    requires ShapeFits(ns, i, sh)
    ensures var close := CloseTag(ns) + sh.tail;
            var value := Written(sh.text, sh.after + close);
            && SkipGap(sh.before + value) == value && SkipGap(sh.after + close) == close && CloseTag(ns) <= close
            && ReadValue(i.depth, value) == Ok(Value(i.depth, sh.text), sh.after + close)
  {
    var close := CloseTag(ns) + sh.tail;
    CloseTagEndsANumber(ns, sh.after, sh.tail);
    TextStarts(i.depth, sh.text, sh.after + close);
    GapIsSkipped(sh.before, Written(sh.text, sh.after + close));
    ValueIsRead(i.depth, sh.text, sh.after + close);
    hide ReadValue, SkipGap, CloseTag, Written, Value, Fits, NumberEnds, AllGap;
  }

  lemma BlockReads(ns: string, i: Interpreter, opening: string, before: string, value: string, payload: Json, rest: string,
                   close: string)
    requires SkipGap(before + value) == value && ReadValue(i.depth, value) == Ok(payload, rest)
    requires SkipGap(rest) == close && CloseTag(ns) <= close
    ensures var block := opening + (before + value);
            |close| <= |block|
            && FirstJsonBoundary(ns, i, block, |opening|)
               == Found(payload, |opening| + |before|, |block| - |close| + |CloseTag(ns)|)
  {
    var inner := before + value;
    var block := opening + inner;
    assert |close| <= |rest| <= |value| && |block| == |opening| + |before| + |value|;
    SplitsAt(opening, inner);
    hide ReadValue, SkipGap, CloseTag, FirstJsonBoundary, Split;
    assert block[|opening|..] == inner by { SplitIs(block, |opening|); }
    BoundaryReads(ns, i, block, |opening|, value, payload, rest);
  }

  lemma SplitIs(s: string, n: nat)
    requires n <= |s|
    ensures Split(s, n) == (s[..n], s[n..])
  {
  }

  lemma OpeningIsThere(ns: string, block: string) returns (opening: string, rest: string)
    requires OpeningLineLength(ns, block).Some?
    ensures opening == OpeningLf(ns) || opening == OpeningCrlf(ns)
    ensures block == opening + rest && OpeningLineLength(ns, block) == Some(|opening|)
  {
    opening := if OpeningCrlf(ns) <= block then OpeningCrlf(ns) else OpeningLf(ns);
    rest := block[|opening|..];
  }

  lemma ShapeAssembles(ns: string, i: Interpreter, block: string, sh: Shape, rest: string, value: string, after: string,
                       close: string)
    requires ShapeFits(ns, i, sh)
    requires block == sh.opening + rest && rest == sh.before + value && value == Written(sh.text, after)
    requires after == sh.after + close && close == CloseTag(ns) + sh.tail
    ensures block == BlockOf(ns, sh)
  {
    hide Written, CloseTag, ShapeFits;
  }

  lemma FirstBoundaryIsRead(ns: string, i: Interpreter, block: string, n: nat)
    requires n <= |block| && FirstJsonBoundary(ns, i, block, n).Found?
    ensures ReadValue(i.depth, SkipGap(block[n..])).Ok?
    ensures CloseTag(ns) <= SkipGap(ReadValue(i.depth, SkipGap(block[n..])).rest)
  {
    hide ReadValue, SkipGap, CloseTag;
  }

  lemma BoundaryIsRead(ns: string, i: Interpreter, block: string, opening: string, rest: string) returns (tail: string)
    requires BoundaryOf(ns, i, block).Found?
    requires block == opening + rest && OpeningLineLength(ns, block) == Some(|opening|)
    ensures ReadValue(i.depth, SkipGap(rest)).Ok?
    ensures SkipGap(ReadValue(i.depth, SkipGap(rest)).rest) == CloseTag(ns) + tail
  {
    hide ReadValue, SkipGap, CloseTag, OpeningLineLength, FirstJsonBoundary;
    assert |opening| <= |block| && FirstJsonBoundary(ns, i, block, |opening|).Found?;
    FirstBoundaryIsRead(ns, i, block, |opening|);
    assert block[|opening|..] == rest;
    tail := SkipGap(ReadValue(i.depth, SkipGap(rest)).rest)[|CloseTag(ns)|..];
  }

  /** Whatever boundary is found, the block is of that shape. */
  lemma FoundBlocksHaveTheShape(ns: string, i: Interpreter, block: string) returns (sh: Shape)
    requires BoundaryOf(ns, i, block).Found?
    ensures ShapeFits(ns, i, sh) && block == BlockOf(ns, sh)
  {
    var opening, rest := OpeningIsThere(ns, block);
    hide BoundaryOf, ReadValue, SkipGap, CloseTag, Written, Value, Fits, AllGap, OpeningLineLength, OpeningLf, OpeningCrlf,
         BlockOf, Sound.SkippedGap;
    var tail := BoundaryIsRead(ns, i, block, opening, rest);
    var value := SkipGap(rest);
    Sound.SkippedIsGap(rest);
    var text := Sound.ValueIsText(i.depth, value);
    var after := ReadValue(i.depth, value).rest;
    Sound.SkippedIsGap(after);
    sh := Shape(opening, Sound.SkippedGap(rest), text, Sound.SkippedGap(after), tail);
    ShapeAssembles(ns, i, block, sh, rest, value, after, SkipGap(after));
  }

  /** The object a call is written as. */
  predicate IsCall(c: Catalog, payload: Json, name: Points, arguments: Arguments) {
    payload == Object(map[NAME := Str(name), ARGUMENTS := Object(arguments)])
    && c.declared(name) && c.accepts(name, arguments)
  }

  lemma NamesDiffer()
    ensures NAME != ARGUMENTS
  {
    assert |NAME| == 4 && |ARGUMENTS| == 9;
  }

  lemma ValidatedIsCall(c: Catalog, block: string, b: Boundary, name: Points, arguments: Arguments)
    requires b.Found?
    ensures ValidatedCall(c, block, b) == Call(name, arguments) <==> IsCall(c, b.payload, name, arguments)
  {
    NamesDiffer();
    hide Ascii;
    if b.payload.Object? && b.payload.fields.Keys == {NAME, ARGUMENTS} {
      var fields := b.payload.fields;
      assert fields == map[NAME := fields[NAME], ARGUMENTS := fields[ARGUMENTS]];
    }
    if IsCall(c, b.payload, name, arguments) {
      assert b.payload.fields.Keys == {NAME, ARGUMENTS};
    }
  }

  /** The block is of the shape, and its value is the call. */
  predicate HoldsCall(c: Catalog, i: Interpreter, block: string, sh: Shape, name: Points, arguments: Arguments) {
    ShapeFits(c.ns, i, sh) && block == BlockOf(c.ns, sh) && IsCall(c, Value(i.depth, sh.text), name, arguments)
  }

  lemma CallsAreHeld(c: Catalog, i: Interpreter, block: string, name: Points, arguments: Arguments) returns (sh: Shape)
    requires BoundaryOf(c.ns, i, block).Found?
    requires ValidatedCall(c, block, BoundaryOf(c.ns, i, block)) == Call(name, arguments)
    ensures HoldsCall(c, i, block, sh, name, arguments) && |sh.tail| <= |block|
    ensures BoundaryOf(c.ns, i, block).callEnd == |block| - |sh.tail|
  {
    hide IsCall, ValidatedCall, ShapeFits, BlockOf, BoundaryOf;
    sh := FoundBlocksHaveTheShape(c.ns, i, block);
    TheCallIsFound(c.ns, i, sh);
    ValidatedIsCall(c, block, BoundaryOf(c.ns, i, block), name, arguments);
  }

  lemma HeldIsCall(c: Catalog, i: Interpreter, block: string, sh: Shape, name: Points, arguments: Arguments)
    requires HoldsCall(c, i, block, sh, name, arguments)
    ensures |sh.tail| <= |block| && BoundaryOf(c.ns, i, block).Found?
    ensures BoundaryOf(c.ns, i, block).callEnd == |block| - |sh.tail|
    ensures ValidatedCall(c, block, BoundaryOf(c.ns, i, block)) == Call(name, arguments)
  {
    hide IsCall, ValidatedCall, ShapeFits, BlockOf, BoundaryOf;
    TheCallIsFound(c.ns, i, sh);
    ValidatedIsCall(c, block, BoundaryOf(c.ns, i, block), name, arguments);
  }

  /** A one-shot block is a call exactly when it is an opening line, one text of a known tool's call that
      its schema accepts, and the close tag, with nothing but gaps between and nothing after. */
  lemma OneShotCallsAreExact(c: Catalog, i: Interpreter, block: string, name: Points, arguments: Arguments)
    ensures ParseCall(c, i, block) == Call(name, arguments) <==>
            exists sh: Shape :: HoldsCall(c, i, block, sh, name, arguments) && sh.tail == ""
  {
    hide HoldsCall, ValidatedCall, BoundaryOf;
    if ParseCall(c, i, block) == Call(name, arguments) {
      var sh := CallsAreHeld(c, i, block, name, arguments);
    }
    if sh: Shape :| HoldsCall(c, i, block, sh, name, arguments) && sh.tail == "" {
      HeldIsCall(c, i, block, sh, name, arguments);
    }
  }

  lemma BlocksEndWithTheirTail(ns: string, sh: Shape)
    ensures EndsWith(BlockOf(ns, sh), sh.tail)
  {
    var close := CloseTag(ns) + sh.tail;
    var text := Written(sh.text, sh.after + close);
    WrittenEndsWithItsTail(sh.text, sh.after + close);
    assert EndsWith(sh.tail, sh.tail);
    hide Written, CloseTag, EndsWith;
    LongerEndsToo(CloseTag(ns), sh.tail, sh.tail);
    LongerEndsToo(sh.after, close, sh.tail);
    EndsTransitively(text, sh.after + close, sh.tail);
    LongerEndsToo(sh.before, text, sh.tail);
    LongerEndsToo(sh.opening, sh.before + text, sh.tail);
  }

  lemma TailIsAfterTheCall(c: Catalog, i: Interpreter, block: string, sh: Shape, name: Points, arguments: Arguments)
    requires HoldsCall(c, i, block, sh, name, arguments) && |sh.tail| <= |block|
    ensures block[|block| - |sh.tail|..] == sh.tail
  {
    BlocksEndWithTheirTail(c.ns, sh);
    hide ShapeFits, IsCall, Value, BlockOf;
  }

  predicate EndsWith(s: string, tail: string) {
    |tail| <= |s| && s[|s| - |tail|..] == tail
  }

  lemma LongerEndsToo(a: string, b: string, tail: string)
    requires EndsWith(b, tail)
    ensures EndsWith(a + b, tail)
  {
  }

  lemma EndsTransitively(s: string, middle: string, tail: string)
    requires EndsWith(s, middle) && EndsWith(middle, tail)
    ensures EndsWith(s, tail)
  {
  }

  lemma {:induction false} WrittenEndsWithItsTail(t: Text, tail: string)
    ensures EndsWith(Written(t, tail), tail)
    decreases t
  {
    match t
    case ArrayText(items) =>
      ItemsEndWithTheirTail(items, "]" + tail);
      EndsTransitively(ItemsWritten(items, "]" + tail), "]" + tail, tail);
      LongerEndsToo("[", ItemsWritten(items, "]" + tail), tail);
      hide EndsWith, ItemsWritten;
    case ObjectText(members) =>
      MembersEndWithTheirTail(members, "}" + tail);
      EndsTransitively(MembersWritten(members, "}" + tail), "}" + tail, tail);
      LongerEndsToo("{", MembersWritten(members, "}" + tail), tail);
      hide EndsWith, MembersWritten;
    case _ => LeafEndsWithItsTail(t, tail);
  }

  lemma LeafEndsWithItsTail(t: Text, tail: string)
    requires !t.ArrayText? && !t.ObjectText?
    ensures EndsWith(Written(t, tail), tail)
  {
    hide Lexeme, PiecesText;
    if t.StringText? {
      LongerEndsToo("\"", tail, tail);
      LongerEndsToo(PiecesText(t.pieces), "\"" + tail, tail);
    }
  }

  lemma {:induction false} ItemsEndWithTheirTail(items: Items, tail: string)
    ensures EndsWith(ItemsWritten(items, tail), tail)
    decreases items
  {
    var rest := if items.MoreItems? then "," + ItemsWritten(items.rest, tail) else tail;
    if items.MoreItems? {
      ItemsEndWithTheirTail(items.rest, tail);
      LongerEndsToo(",", ItemsWritten(items.rest, tail), tail);
    }
    LongerEndsToo(items.after, rest, tail);
    WrittenEndsWithItsTail(items.value, items.after + rest);
    hide EndsWith, Written;
    EndsTransitively(Written(items.value, items.after + rest), items.after + rest, tail);
    LongerEndsToo(items.before, Written(items.value, items.after + rest), tail);
  }

  lemma {:induction false} MembersEndWithTheirTail(m: Members, tail: string)
    ensures EndsWith(MembersWritten(m, tail), tail)
    decreases m
  {
    var rest := if m.MoreMembers? then "," + MembersWritten(m.rest, tail) else tail;
    if m.MoreMembers? {
      MembersEndWithTheirTail(m.rest, tail);
      LongerEndsToo(",", MembersWritten(m.rest, tail), tail);
    }
    LongerEndsToo(m.after, rest, tail);
    var value := Written(m.value, m.after + rest);
    WrittenEndsWithItsTail(m.value, m.after + rest);
    var colon := ":" + (m.afterColon + value);
    var key := Quoted(m.key, m.beforeColon + colon);
    hide EndsWith, Written, PiecesText;
    EndsTransitively(value, m.after + rest, tail);
    LongerEndsToo(m.afterColon, value, tail);
    LongerEndsToo(":", m.afterColon + value, tail);
    LongerEndsToo(m.beforeColon, colon, tail);
    LongerEndsToo("\"", m.beforeColon + colon, tail);
    LongerEndsToo(PiecesText(m.key), "\"" + (m.beforeColon + colon), tail);
    LongerEndsToo("\"", PiecesText(m.key) + ("\"" + (m.beforeColon + colon)), tail);
    LongerEndsToo(m.before, key, tail);
  }

  /** A streamed block is a call exactly when it starts with one such call and the search finds no further
      opening line at a line start outside a fence of what follows, which is dropped. */
  lemma StreamedCallsAreExact(c: Catalog, i: Interpreter, block: string, name: Points, arguments: Arguments)
    ensures ParseStreamedBlock(c, i, block) == Call(name, arguments) <==>
            exists sh: Shape :: HoldsCall(c, i, block, sh, name, arguments)
                                && forall p: nat :: !OpensAt(c.ns, NEW_PARSER, sh.tail, p)
  {
    hide HoldsCall, ValidatedCall, BoundaryOf, OpensAt;
    if ParseStreamedBlock(c, i, block) == Call(name, arguments) {
      var sh := CallsAreHeld(c, i, block, name, arguments);
      TailIsAfterTheCall(c, i, block, sh, name, arguments);
    }
    if sh: Shape :| HoldsCall(c, i, block, sh, name, arguments) && forall p: nat :: !OpensAt(c.ns, NEW_PARSER, sh.tail, p) {
      HeldIsCall(c, i, block, sh, name, arguments);
      TailIsAfterTheCall(c, i, block, sh, name, arguments);
    }
  }

  // ---------------------------------------------------------------- refusals

  /** The offset lies in the block, and the excerpt is the slice of the block around it. */
  predicate LiesInside(r: Rejection, block: string) {
    && r.length == |block| && r.offset <= |block|
    && r.excerptStart <= r.offset <= r.excerptStart + |r.excerpt| <= |block|
    && r.excerpt == block[r.excerptStart..r.excerptStart + |r.excerpt|]
    && |r.excerpt| <= 2 * EXCERPT_RADIUS
    && (|block| <= EXCERPT_RADIUS ==> r.excerpt == block)
  }

  lemma RefusalsLieInside(rule: Rule, block: string, offset: int)
    ensures LiesInside(Refuse(rule, block, offset), block)
    ensures 0 <= offset <= |block| ==> Refuse(rule, block, offset).offset == offset
  {
  }

  /** Every refusal, of a one-shot block or of a streamed one, points into the block. */
  lemma EveryRefusalLiesInside(c: Catalog, i: Interpreter, block: string)
    ensures ParseCall(c, i, block).Refused? ==> LiesInside(ParseCall(c, i, block).rejection, block)
    ensures ParseStreamedBlock(c, i, block).Refused? ==> LiesInside(ParseStreamedBlock(c, i, block).rejection, block)
  {
    hide Refuse, LiesInside, ReadValue, SkipGap;
    forall rule: Rule, offset: int ensures LiesInside(Refuse(rule, block, offset), block) {
      RefusalsLieInside(rule, block, offset);
    }
  }

  // ---------------------------------------------------------------- what a stream hands over

  predicate SpaceUpTo(buffer: string, k: nat) {
    k <= |buffer| && forall j :: 0 <= j < k ==> Space(buffer[j])
  }

  /** White space, then a complete opening line. */
  ghost predicate OpensAfterSpace(ns: string, buffer: string) {
    exists k: nat :: SpaceUpTo(buffer, k) && HasOpeningLine(ns, buffer[k..])
  }

  lemma {:induction false} BuffersOpenAfterSpace(ns: string, pieces: seq<string>)
    ensures var s := FedAll(ns, pieces).0; s.callBuffer.Some? ==> OpensAfterSpace(ns, s.callBuffer.value)
  {
    if pieces != [] {
      var before, text := pieces[..|pieces| - 1], pieces[|pieces| - 1];
      BuffersOpenAfterSpace(ns, before);
      var s := FedAll(ns, before).0;
      hide Advance, HasOpeningLine, SearchFinds;
      if s.callBuffer.Some? {
        LongerBuffersOpenToo(ns, s.callBuffer.value, text);
      } else {
        var value := s.candidate + text;
        var opening := OpeningLineStart(ns, s, value, 0);
        if opening.Some? {
          var k := if IsSpace(value[..opening.value]) then opening.value else 0;
          assert OpensAt(ns, s, value, opening.value);
          FoundIsAnOpeningLine(ns, value, opening.value);
          var buffer := if k > 0 then value else value[opening.value..];
          assert buffer[k..] == value[opening.value..];
          assert forall j :: 0 <= j < k ==> buffer[j] == value[..opening.value][j];
          assert SpaceUpTo(buffer, k);
          assert OpensAfterSpace(ns, buffer);
          assert opening.value == 0 ==> value == value[0..];
        }
      }
    }
  }

  lemma LongerBuffersOpenToo(ns: string, buffer: string, more: string)
    requires OpensAfterSpace(ns, buffer)
    ensures OpensAfterSpace(ns, buffer + more)
  {
    hide HasOpeningLine;
    var k: nat :| SpaceUpTo(buffer, k) && HasOpeningLine(ns, buffer[k..]);
    var longer := buffer + more;
    assert longer[k..] == buffer[k..] + more;
    OpeningLineStays(ns, buffer[k..], more);
    assert SpaceUpTo(longer, k);
  }

  lemma OpeningLineStays(ns: string, value: string, more: string)
    requires HasOpeningLine(ns, value)
    ensures HasOpeningLine(ns, value + more)
  {
  }

  lemma {:induction false} OpenTagStaysStripped(ns: string, s: string)
    requires OpenTag(ns) <= s
    requires s == OpenTag(ns) || s == OpenTag(ns) + "\r" || HasOpeningLine(ns, s)
    ensures Stripped(s) == OpenTag(ns) || HasOpeningLine(ns, Stripped(s))
    decreases |s|
  {
    var tag := OpenTag(ns);
    assert s[0] == '<' && s[|tag| - 1] == tag[|tag| - 1] == '>';
    if Space(s[|s| - 1]) {
      var shorter := s[..|s| - 1];
      assert tag <= shorter;
      ShorterStillOpens(ns, s, shorter);
      OpenTagStaysStripped(ns, shorter);
    }
  }

  lemma ShorterStillOpens(ns: string, s: string, shorter: string)
    requires |s| > |OpenTag(ns)| && OpenTag(ns) <= s && shorter == s[..|s| - 1]
    requires s == OpenTag(ns) + "\r" || HasOpeningLine(ns, s)
    ensures shorter == OpenTag(ns) || shorter == OpenTag(ns) + "\r" || HasOpeningLine(ns, shorter)
  {
    var tag := OpenTag(ns);
    if |s| == |tag| + 1 {
      assert shorter == tag;
    } else if |s| == |tag| + 2 && OpeningCrlf(ns) <= s {
      assert shorter == tag + "\r";
    } else if OpeningLf(ns) <= s {
      assert OpeningLf(ns) <= shorter;
    } else {
      assert OpeningCrlf(ns) <= shorter;
    }
  }

  lemma {:induction false} SpaceIsStripped(s: string, k: nat)
    requires k <= |s| && forall j :: 0 <= j < k ==> Space(s[j])
    ensures Stripped(s) == Stripped(s[k..])
    decreases k
  {
    if k == 0 {
      assert s[0..] == s;
    } else {
      SpaceIsStripped(s[1..], k - 1);
      assert s[1..][k - 1..] == s[k..];
    }
  }

  /** The block of a finished stream starts with an opening line, unless the stream ended right there
      and stripping took the line end: then it is the tag alone, and it is refused at its end. */
  lemma StreamedBlocksOpen(ns: string, pieces: seq<string>)
    ensures var s := FedAll(ns, pieces).0;
            s.callBuffer.Some? ==>
              var block := Stripped(s.callBuffer.value);
              HasOpeningLine(ns, block) || block == OpenTag(ns)
  {
    BuffersOpenAfterSpace(ns, pieces);
    var s := FedAll(ns, pieces).0;
    hide FedAll;
    if s.callBuffer.Some? {
      var buffer := s.callBuffer.value;
      var k: nat :| SpaceUpTo(buffer, k) && HasOpeningLine(ns, buffer[k..]);
      SpaceIsStripped(buffer, k);
      OpenTagStaysStripped(ns, buffer[k..]);
    }
  }
}
