/** Why a text block is no call, and what a response that is none gives: which rule is named and where, for every
    block, and that a text without a call is given back whole. */
module TextToolRefusals {
  import opened Wire
  import opened MarkdownFences
  import opened TextToolStream
  import opened JsonText
  import Sound = JsonTextSound
  import opened TextToolCalls

  /** The block is refused for the rule, at the offset, with the text around it. */
  predicate Refuses(p: Parsed, block: string, rule: Rule, offset: int) {
    && p.Refused? && p.rejection.rule == rule && p.rejection.offset == offset && p.rejection.length == |block|
    && 0 <= offset <= |block|
    && p.rejection.excerptStart == (if offset < 512 then 0 else offset - 512)
    && p.rejection.excerpt == block[p.rejection.excerptStart..if offset + 512 > |block| then |block| else offset + 512]
  }

  /** The object of a call of that name with those arguments. */
  predicate CallsTool(payload: Json, name: Points, arguments: Arguments) {
    payload == Object(map[NAME := Str(name), ARGUMENTS := Object(arguments)])
  }

  /** What a value after the opening line comes to: the call it is the object of, if the tool is known and takes the
      arguments; otherwise the refusal of what it is not, at the start of the value. */
  ghost predicate Judged(c: Catalog, block: string, at: int, payload: Json, p: Parsed) {
    && ((forall name, arguments :: !CallsTool(payload, name, arguments)) ==> Refuses(p, block, NotACallObject, at))
    && (forall name, arguments :: CallsTool(payload, name, arguments) ==>
          if !c.declared(name) then Refuses(p, block, UnknownTool, at)
          else if !c.accepts(name, arguments) then Refuses(p, block, ArgumentsOffSchema, at)
          else p == Call(name, arguments))
  }

  lemma RefusalsPoint(rule: Rule, block: string, offset: int)
    ensures 0 <= offset <= |block| ==> Refuses(Refused(Refuse(rule, block, offset)), block, rule, offset)
    ensures offset < 0 ==> Refuses(Refused(Refuse(rule, block, offset)), block, rule, 0)
    ensures offset > |block| ==> Refuses(Refused(Refuse(rule, block, offset)), block, rule, |block|)
  {
  }

  lemma ObjectsOfCalls(payload: Json)
    ensures (exists name, arguments :: CallsTool(payload, name, arguments)) <==>
            payload.Object? && payload.fields.Keys == {NAME, ARGUMENTS}
            && payload.fields[NAME].Str? && payload.fields[ARGUMENTS].Object?
    ensures forall name, arguments :: CallsTool(payload, name, arguments) ==>
              payload.fields[NAME] == Str(name) && payload.fields[ARGUMENTS] == Object(arguments)
  {
    NamesDiffer();
    hide Ascii;
    forall name, arguments | CallsTool(payload, name, arguments)
      ensures payload.fields.Keys == {NAME, ARGUMENTS} {
      assert map[NAME := Str(name), ARGUMENTS := Object(arguments)].Keys == {NAME, ARGUMENTS};
    }
    if payload.Object? && payload.fields.Keys == {NAME, ARGUMENTS} && payload.fields[NAME].Str? && payload.fields[ARGUMENTS].Object? {
      var name, arguments := payload.fields[NAME].points, payload.fields[ARGUMENTS].fields;
      assert payload.fields == map[NAME := Str(name), ARGUMENTS := Object(arguments)];
      assert CallsTool(payload, name, arguments);
    }
  }

  lemma ValuesAreJudged(c: Catalog, block: string, b: Boundary)
    requires b.Found? && b.valueStart <= |block|
    ensures Judged(c, block, b.valueStart, b.payload, ValidatedCall(c, block, b))
  {
    hide CallsTool, Refuse, Refuses;
    ObjectsOfCalls(b.payload);
    RefusalsPoint(NotACallObject, block, b.valueStart);
    RefusalsPoint(UnknownTool, block, b.valueStart);
    RefusalsPoint(ArgumentsOffSchema, block, b.valueStart);
  }

  /** A block that does not start with an opening line is no JSON call, refused at its end. */
  lemma ABlockWithoutAnOpeningIsRefused(c: Catalog, i: Interpreter, block: string)
    requires !HasOpeningLine(c.ns, block)
    ensures Refuses(ParseCall(c, i, block), block, CallNotJson, |block|)
    ensures Refuses(ParseStreamedBlock(c, i, block), block, CallNotJson, |block|)
  {
    RefusalsPoint(CallNotJson, block, |block|);
    hide Refuse, Refuses;
  }

  /** Where a JSON value, its gap and the close tag leave off in a block, told from the end of it. */
  datatype Reading = NoValue | NotClosed(closeAt: nat) | Closed(payload: Json, valueAt: nat, callEnd: nat, tail: string)

  /** The first opening line of a text that the search finds at a line start outside a fence. */
  ghost predicate OpensFirst(ns: string, text: string, p: nat) {
    OpensAt(ns, NEW_PARSER, text, p) && forall q: nat :: q < p ==> !OpensAt(ns, NEW_PARSER, text, q)
  }

  /** What is read after the opening line. */
  predicate Reads(ns: string, depth: nat, block: string, rest: string, r: Reading) {
    var value := SkipGap(rest);
    match ReadValue(depth, value)
    case Malformed => r == NoValue
    case Ok(payload, after) =>
      var close := SkipGap(after);
      if CloseTag(ns) <= close
      then r.Closed? && r.payload == payload && r.valueAt == |block| - |value| && close == CloseTag(ns) + r.tail
           && r.callEnd == |block| - |r.tail|
      else r.NotClosed? && r.closeAt == |block| - |close|
  }

  /** Every block that starts with an opening line: no JSON value is refused where the interpreter says, a value without
      its close tag where the tag should stand; text after a one-shot call is refused where it starts, a second call in a
      streamed text where it opens; and otherwise the value is judged. */
  lemma ABlockIsRefusedWhereItBreaks(c: Catalog, i: Interpreter, block: string, opening: string, rest: string, r: Reading)
    requires opening == OpeningLf(c.ns) || opening == OpeningCrlf(c.ns)
    requires block == opening + rest && Reads(c.ns, i.depth, block, rest, r)
    ensures r.NoValue? ==>
              Refuses(ParseCall(c, i, block), block, CallNotJson, Inside(block, i.brokenAt(block)))
              && Refuses(ParseStreamedBlock(c, i, block), block, CallNotJson, Inside(block, i.brokenAt(block)))
    ensures r.NotClosed? ==>
              Refuses(ParseCall(c, i, block), block, CloseTagNotAfterCall, r.closeAt)
              && Refuses(ParseStreamedBlock(c, i, block), block, CloseTagNotAfterCall, r.closeAt)
    ensures r.Closed? && r.tail != "" ==> Refuses(ParseCall(c, i, block), block, TextAfterCall, r.callEnd)
    ensures r.Closed? && r.tail == "" ==> Judged(c, block, r.valueAt, r.payload, ParseCall(c, i, block))
    ensures r.Closed? ==> forall p: nat :: OpensFirst(c.ns, r.tail, p) ==>
              Refuses(ParseStreamedBlock(c, i, block), block, SecondCall, r.callEnd + p)
    ensures r.Closed? && (forall p: nat :: !OpensAt(c.ns, NEW_PARSER, r.tail, p)) ==>
              Judged(c, block, r.valueAt, r.payload, ParseStreamedBlock(c, i, block))
  {
    hide ReadValue, SkipGap, CloseTag, Refuse, Refuses, Judged, ValidatedCall, OpensAt, OpeningLineLength, OpeningLf, OpeningCrlf,
         OpeningLineStart, FirstJsonBoundary;
    TextToolCalls.OneOpeningOnly(c.ns, opening, rest);
    BoundaryOfOpened(c.ns, i, block, |opening|);
    assert block[|opening|..] == rest;
    TheBoundaryIsRead(c.ns, i, block, opening, rest, r);
    if r.Closed? {
      ClosedBlocksAreJudged(c, i, block, r);
    }
  }

  /** What a value leaves is the end of its text. */
  lemma RestIsTheEnd(depth: nat, s: string)
    requires ReadValue(depth, s).Ok?
    ensures EndsWith(s, ReadValue(depth, s).rest)
  {
    hide ReadValue, EndsWith, Written, Fits, Value;
    var t := Sound.ValueIsText(depth, s);
    WrittenEndsWithItsTail(t, ReadValue(depth, s).rest);
  }

  lemma GapsLeaveTheEnd(s: string)
    ensures EndsWith(s, SkipGap(s))
  {
  }

  /** What is left after the value and its gap is the end of the block. */
  lemma EndsAreEnds(depth: nat, block: string, opening: string, rest: string)
    requires block == opening + rest && ReadValue(depth, SkipGap(rest)).Ok?
    ensures EndsWith(block, SkipGap(ReadValue(depth, SkipGap(rest)).rest)) && EndsWith(block, SkipGap(rest))
  {
    hide ReadValue, EndsWith, SkipGap;
    var value := SkipGap(rest);
    var after := ReadValue(depth, value).rest;
    RestIsTheEnd(depth, value);
    GapsLeaveTheEnd(rest);
    GapsLeaveTheEnd(after);
    LongerEndsToo(opening, rest, value);
    EndsTransitively(block, value, after);
    EndsTransitively(block, after, SkipGap(after));
  }

  /** The offset inside the block that is nearest to the one the interpreter names. */
  function Inside(block: string, offset: int): int {
    if offset < 0 then 0 else if offset > |block| then |block| else offset
  }

  lemma TheBoundaryIsRead(ns: string, i: Interpreter, block: string, opening: string, rest: string, r: Reading)
    requires block == opening + rest && Reads(ns, i.depth, block, rest, r)
    ensures var b := FirstJsonBoundary(ns, i, block, |opening|);
            match r
            case NoValue => b.NotFound? && Refuses(Refused(b.rejection), block, CallNotJson, Inside(block, i.brokenAt(block)))
            case NotClosed(closeAt) => b.NotFound? && Refuses(Refused(b.rejection), block, CloseTagNotAfterCall, closeAt)
            case Closed(payload, valueAt, callEnd, tail) =>
              b == Found(payload, valueAt, callEnd) && callEnd <= |block| && block[callEnd..] == tail && valueAt <= |block|
  {
    hide ReadValue, Refuse, Refuses, CloseTag, SkipGap, EndsWith;
    assert block[|opening|..] == rest;
    var value := SkipGap(rest);
    if ReadValue(i.depth, value).Malformed? {
      RefusalsPoint(CallNotJson, block, i.brokenAt(block));
    } else {
      var close := SkipGap(ReadValue(i.depth, value).rest);
      EndsAreEnds(i.depth, block, opening, rest);
      ItEndsAt(block, close);
      ItEndsAt(block, value);
      RefusalsPoint(CloseTagNotAfterCall, block, |block| - |close|);
      if r.Closed? {
        ItEndsAfter(block, CloseTag(ns), r.tail, close);
      }
    }
  }

  lemma ItEndsAt(s: string, end: string)
    requires EndsWith(s, end)
    ensures 0 <= |s| - |end| <= |s|
  {
  }

  lemma ItEndsAfter(s: string, tag: string, tail: string, end: string)
    requires EndsWith(s, end) && end == tag + tail
    ensures |tail| <= |s| && s[|s| - |tail|..] == tail && |s| - |end| + |tag| == |s| - |tail|
  {
    assert end[|tag|..] == tail;
  }

  lemma ClosedBlocksAreJudged(c: Catalog, i: Interpreter, block: string, r: Reading)
    requires r.Closed? && BoundaryOf(c.ns, i, block) == Found(r.payload, r.valueAt, r.callEnd)
    requires r.callEnd <= |block| && block[r.callEnd..] == r.tail && r.valueAt <= |block|
    ensures r.tail != "" ==> Refuses(ParseCall(c, i, block), block, TextAfterCall, r.callEnd)
    ensures r.tail == "" ==> Judged(c, block, r.valueAt, r.payload, ParseCall(c, i, block))
    ensures forall p: nat :: OpensFirst(c.ns, r.tail, p) ==>
              Refuses(ParseStreamedBlock(c, i, block), block, SecondCall, r.callEnd + p)
    ensures (forall p: nat :: !OpensAt(c.ns, NEW_PARSER, r.tail, p)) ==>
              Judged(c, block, r.valueAt, r.payload, ParseStreamedBlock(c, i, block))
  {
    hide BoundaryOf, Refuse, Refuses, Judged, ValidatedCall, OpensFirst, OpensAt, OpeningLineStart;
    RefusalsPoint(TextAfterCall, block, r.callEnd);
    ValuesAreJudged(c, block, Found(r.payload, r.valueAt, r.callEnd));
    TheFirstIsFound(c.ns, r.tail);
    var second := OpeningLineStart(c.ns, NEW_PARSER, r.tail, 0);
    if second.Some? {
      RefusalsPoint(SecondCall, block, r.callEnd + second.value);
    }
  }

  lemma TheFirstIsFound(ns: string, tail: string)
    ensures var second := OpeningLineStart(ns, NEW_PARSER, tail, 0);
            && (second.Some? ==> second.value < |tail| && OpensAt(ns, NEW_PARSER, tail, second.value))
            && (forall p: nat :: OpensFirst(ns, tail, p) ==> second == Some(p))
            && (second.None? ==> forall p: nat :: !OpensAt(ns, NEW_PARSER, tail, p))
  {
    var second := OpeningLineStart(ns, NEW_PARSER, tail, 0);
    if second.Some? {
      StartsInside(ns, tail, second.value);
    }
    hide OpensAt;
  }

  lemma StartsInside(ns: string, tail: string, p: nat)
    requires OpensAt(ns, NEW_PARSER, tail, p)
    ensures p < |tail|
  {
  }

  // ---------------------------------------------------------------- text that is no call

  predicate AllSpace(text: string) {
    forall i :: 0 <= i < |text| ==> Space(text[i])
  }

  /** A response is read as a call exactly when its first text after white space is an opening line; any other one is
      given back as it is. */
  lemma OtherResponsesAreGivenBack(c: Catalog, i: Interpreter, response: string, space: string, rest: string)
    requires response == space + rest && AllSpace(space) && (rest != "" ==> !Space(rest[0]))
    ensures !HasOpeningLine(c.ns, rest) ==> ParseResponse(c, i, response) == FinalText(response)
    ensures HasOpeningLine(c.ns, rest) ==> !ParseResponse(c, i, response).FinalText?
  {
    hide ParseCall, HasOpeningLine, BoundaryOf, ValidatedCall;
    SpaceIsStrippedLeft(space, rest);
    ParsedBlocksAreNoText(c, i, Stripped(response));
  }

  lemma {:induction false} SpaceIsStrippedLeft(space: string, rest: string)
    requires AllSpace(space) && (rest != "" ==> !Space(rest[0]))
    ensures StrippedLeft(space + rest) == rest
    decreases |space|
  {
    if space == "" {
      assert space + rest == rest;
    } else {
      assert (space + rest)[0] == space[0] && (space + rest)[1..] == space[1..] + rest;
      SpaceIsStrippedLeft(space[1..], rest);
    }
  }

  lemma ParsedBlocksAreNoText(c: Catalog, i: Interpreter, block: string)
    ensures !ParseCall(c, i, block).FinalText? && !ParseStreamedBlock(c, i, block).FinalText?
  {
    hide BoundaryOf;
  }

  /** A finished stream in which no call was recognised gives back the text it held: with what it returned before, that
      is all it was fed; and one in which a call was recognised gives no text. */
  lemma FinishedStreamsGiveBackTheRest(c: Catalog, i: Interpreter, pieces: seq<string>)
    ensures var (s, returned) := FedAll(c.ns, pieces);
            && (s.callBuffer.None? ==>
                 exists text :: Finished(c, i, s) == FinalText(text) && returned + text == Joined(pieces))
            && (s.callBuffer.Some? ==> !Finished(c, i, s).FinalText?)
  {
    hide FedAll, ParseStreamedBlock, Stripped;
    NothingIsLost(c.ns, pieces);
    var (s, returned) := FedAll(c.ns, pieces);
    if s.callBuffer.Some? {
      ParsedBlocksAreNoText(c, i, Stripped(s.callBuffer.value));
    }
  }

  /** The block of a recognised call is the buffered text without the white space around it. */
  lemma {:induction false} StrippingLeavesTheText(before: string, text: string, after: string)
    requires AllSpace(before) && AllSpace(after) && text != "" && !Space(text[0]) && !Space(text[|text| - 1])
    ensures Stripped(before + (text + after)) == text
    decreases |before| + |after|
  {
    hide Space;
    var s := before + (text + after);
    if before != "" {
      assert s[0] == before[0] && s[1..] == before[1..] + (text + after);
      StrippingLeavesTheText(before[1..], text, after);
    } else if after != "" {
      var less := after[..|after| - 1];
      assert s[..|s| - 1] == before + (text + less) && s[|s| - 1] == after[|after| - 1] && s[0] == text[0];
      StrippingLeavesTheText(before, text, less);
    } else {
      assert s == text;
    }
  }

  lemma {:induction false} SpaceIsStrippedAway(space: string)
    requires AllSpace(space)
    ensures Stripped(space) == ""
  {
    hide Space;
    if space != "" {
      SpaceIsStrippedAway(space[1..]);
    }
  }
}
