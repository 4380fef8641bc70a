/** The converse of reading back: whatever the decoder reads is a text of the grammar. */
module JsonTextSound {
  import opened Wire
  import opened JsonText

  /** The gap the decoder skips. */
  function SkippedGap(s: string): (gap: string)
    ensures s == gap + SkipGap(s)
  {
    s[..|s| - |SkipGap(s)|]
  }

  lemma {:induction false} SkippedIsGap(s: string)
    ensures AllGap(SkippedGap(s))
    decreases |s|
  {
    if s != "" && Gap(s[0]) {
      SkippedIsGap(s[1..]);
      assert SkippedGap(s) == [s[0]] + SkippedGap(s[1..]);
    }
  }

  lemma EscapeIsText(s: string)
    requires EscapeDigits(s).Some?
    ensures Hex4(EscapeDigits(s).value) && s == PieceText(Unit(EscapeDigits(s).value)) + s[6..]
  {
    assert s[..6] == "\\u" + s[2..6];
  }

  lemma PointsOfOne(p: Piece, ps: seq<Piece>)
    requires PieceFits(p) && PiecesFit(ps)
    requires !(p.Unit? && High(PointOf(p)) && ps != [] && ps[0].Unit? && Low(PointOf(ps[0])))
    ensures PiecesFit([p] + ps) && PointsOf([p] + ps) == [PointOf(p)] + PointsOf(ps)
  {
    assert ([p] + ps)[1..] == ps;
  }

  lemma PointsOfTwo(p: Piece, q: Piece, ps: seq<Piece>)
    requires PieceFits(p) && PieceFits(q) && PiecesFit(ps)
    requires p.Unit? && q.Unit? && High(PointOf(p)) && Low(PointOf(q))
    ensures PiecesFit([p, q] + ps) && PointsOf([p, q] + ps) == [Join(PointOf(p), PointOf(q))] + PointsOf(ps)
  {
    assert ([p, q] + ps)[2..] == ps;
  }

  lemma PiecesTextOfOne(p: Piece, ps: seq<Piece>, tail: string)
    ensures PiecesText([p] + ps) + tail == PieceText(p) + (PiecesText(ps) + tail)
  {
    assert ([p] + ps)[1..] == ps;
    Associates(PieceText(p), PiecesText(ps), tail);
  }

  /** What the decoder reads as characters is the text of some pieces with those code points. */
  lemma {:induction false} CharsAreText(s: string) returns (ps: seq<Piece>)
    requires ReadChars(s).Ok?
    ensures PiecesFit(ps) && PointsOf(ps) == ReadChars(s).value
    ensures s == PiecesText(ps) + ("\"" + ReadChars(s).rest)
    decreases |s|
  {
    var tail := "\"" + ReadChars(s).rest;
    if s[0] == '"' {
      ps := [];
    } else if s[0] != '\\' {
      var more := CharsAreText(s[1..]);
      ps := [Plain(s[0])] + more;
      PointsOfOne(Plain(s[0]), more);
      PiecesTextOfOne(Plain(s[0]), more, tail);
    } else if |s| > 1 && s[1] in SHORT_ESCAPES {
      var more := CharsAreText(s[2..]);
      ps := [Short(s[1])] + more;
      PointsOfOne(Short(s[1]), more);
      PiecesTextOfOne(Short(s[1]), more, tail);
      assert s == PieceText(Short(s[1])) + s[2..];
    } else {
      ps := EscapesAreText(s);
    }
  }

  /** The decoder does not join the unit with a low one that follows: then the pieces do not either. */
  lemma UnpairedUnit(digits: string, s: string, more: seq<Piece>, tail: string)
    requires Hex4(digits) && PiecesFit(more) && s == PiecesText(more) + tail
    requires High(Hex4Value(digits)) && EscapeDigits(s).Some? ==> !Low(Hex4Value(EscapeDigits(s).value))
    ensures PointsOf([Unit(digits)] + more) == [Hex4Value(digits)] + PointsOf(more)
  {
    if more != [] && more[0].Unit? {
      assert PieceFits(more[0]);
      Associates(PieceText(more[0]), PiecesText(more[1..]), tail);
      UnitIsRead(more[0].digits, PiecesText(more[1..]) + tail);
    }
    PointsOfOne(Unit(digits), more);
  }

  lemma PairsAssemble(s: string, digits: string, second: string, more: seq<Piece>, tail: string)
    requires Hex4(digits) && Hex4(second) && High(Hex4Value(digits)) && Low(Hex4Value(second)) && PiecesFit(more)
    requires s == PieceText(Unit(digits)) + (PieceText(Unit(second)) + (PiecesText(more) + tail))
    ensures var ps := [Unit(digits)] + ([Unit(second)] + more);
            && PiecesFit(ps) && PointsOf(ps) == [Join(Hex4Value(digits), Hex4Value(second))] + PointsOf(more)
            && s == PiecesText(ps) + tail
  {
    hide PiecesText, PieceText, EscapeDigits, Hex4Value, Hex4;
    assert [Unit(digits)] + ([Unit(second)] + more) == [Unit(digits), Unit(second)] + more;
    PointsOfTwo(Unit(digits), Unit(second), more);
    PiecesTextOfOne(Unit(second), more, tail);
    PiecesTextOfOne(Unit(digits), [Unit(second)] + more, tail);
  }

  lemma {:induction false} EscapesAreText(s: string) returns (ps: seq<Piece>)
    requires ReadChars(s).Ok? && s[0] == '\\' && (|s| > 1 ==> s[1] !in SHORT_ESCAPES)
    ensures PiecesFit(ps) && PointsOf(ps) == ReadChars(s).value
    ensures s == PiecesText(ps) + ("\"" + ReadChars(s).rest)
    decreases |s|, 0
  {
    var tail := "\"" + ReadChars(s).rest;
    var digits := EscapeDigits(s).value;
    var rest := s[6..];
    var second := EscapeDigits(rest);
    EscapeIsText(s);
    if High(Hex4Value(digits)) && second.Some? && Low(Hex4Value(second.value)) {
      EscapeIsText(rest);
      assert rest[6..] == s[12..];
      var more := CharsAreText(s[12..]);
      ps := [Unit(digits)] + ([Unit(second.value)] + more);
      hide PiecesText, PieceText, EscapeDigits, Hex4Value, Hex4, PointsOf, PiecesFit;
      PairsAssemble(s, digits, second.value, more, tail);
    } else {
      var more := CharsAreText(rest);
      hide PiecesText, PieceText, EscapeDigits, Hex4Value, Hex4;
      ps := [Unit(digits)] + more;
      UnpairedUnit(digits, rest, more, tail);
      PiecesTextOfOne(Unit(digits), more, tail);
    }
  }

  lemma SliceOfPrefix(s: string, n: nat, k: nat)
    requires k <= n <= |s|
    ensures s[..n][k..] == s[k..][..n - k]
  {
  }

  lemma FractionIsText(s: string)
    ensures FractionFits(s[..FractionLength(s)])
  {
    var n := FractionLength(s);
    if n > 0 {
      SliceOfPrefix(s, n, 1);
    }
  }

  lemma ExponentIsText(s: string)
    ensures ExponentFits(s[..ExponentLength(s)])
  {
    var n := ExponentLength(s);
    if n > 0 {
      var sign := if |s| > 1 && s[1] in {'+', '-'} then 1 else 0;
      SliceOfPrefix(s, n, 1 + sign);
      assert s[..n][0] == s[0] && (sign == 1 ==> s[..n][1] == s[1]);
    }
  }

  lemma SplitJoins(s: string, n: nat)
    requires n <= |s|
    ensures Split(s, n).0 + Split(s, n).1 == s
  {
  }

  lemma WholeIsText(s: string)
    ensures var whole := s[..WholeLength(s)];
            whole != "" ==> AllDigits(whole) && (whole[0] == '0' ==> |whole| == 1)
  {
  }

  lemma NumberIsText(depth: nat, s: string) returns (t: Text)
    requires ReadNumber(s).Ok?
    ensures t.NumberText? && Fits(depth, t) && Number(Lexeme(t)) == ReadNumber(s).value
    ensures s == Lexeme(t) + ReadNumber(s).rest
  {
    var (sign, afterSign) := Split(s, SignLength(s));
    var (whole, afterWhole) := Split(afterSign, WholeLength(afterSign));
    var (fraction, afterFraction) := Split(afterWhole, FractionLength(afterWhole));
    var (exponent, rest) := Split(afterFraction, ExponentLength(afterFraction));
    t := NumberText(sign == "-", whole, fraction, exponent);
    SplitJoins(s, SignLength(s));
    SplitJoins(afterSign, WholeLength(afterSign));
    SplitJoins(afterWhole, FractionLength(afterWhole));
    SplitJoins(afterFraction, ExponentLength(afterFraction));
    WholeIsText(afterSign);
    FractionIsText(afterWhole);
    ExponentIsText(afterFraction);
    assert sign == if t.minus then "-" else "";
    hide SignLength, WholeLength, FractionLength, ExponentLength, AllDigits, FractionFits, ExponentFits;
    LexemeSplits(t, rest);
  }

  lemma HeadAndRest(s: string, c: char)
    requires s != "" && s[0] == c
    ensures s == [c] + s[1..]
  {
  }

  /** A gap and the character after it. */
  lemma GapThen(s: string, c: char)
    requires SkipGap(s) != "" && SkipGap(s)[0] == c
    ensures AllGap(SkippedGap(s)) && s == SkippedGap(s) + ([c] + SkipGap(s)[1..])
  {
    SkippedIsGap(s);
    HeadAndRest(SkipGap(s), c);
  }

  lemma ArrayReads(depth: nat, inside: string)
    requires ReadValue(depth, "[" + inside).Ok?
    ensures depth > 0 && SkipGap(inside) != ""
    ensures SkipGap(inside)[0] != ']' ==> ReadItems(depth - 1, SkipGap(inside)).Ok?
  {
    assert ("[" + inside)[1..] == inside;
    hide SkipGap;
  }

  lemma ObjectReads(depth: nat, inside: string)
    requires ReadValue(depth, "{" + inside).Ok?
    ensures depth > 0 && SkipGap(inside) != ""
    ensures SkipGap(inside)[0] != '}' ==> ReadMembers(depth - 1, SkipGap(inside)).Ok?
  {
    assert ("{" + inside)[1..] == inside;
    hide SkipGap, FieldsOf;
  }

  /** `t` is the text the decoder reads from the front of `s`, and no more. */
  predicate IsTextOf(depth: nat, t: Text, s: string) {
    && Fits(depth, t) && ReadValue(depth, s).Ok? && Value(depth, t) == ReadValue(depth, s).value
    && s == Written(t, ReadValue(depth, s).rest)
  }

  predicate AreItemsOf(depth: nat, items: Items, gap: string, s: string) {
    && ItemsFit(depth, items) && ReadItems(depth, s).Ok? && ItemValues(depth, items) == ReadItems(depth, s).value
    && gap + s == ItemsWritten(items, "]" + ReadItems(depth, s).rest)
  }

  predicate AreMembersOf(depth: nat, m: Members, gap: string, s: string) {
    && MembersFit(depth, m) && ReadMembers(depth, s).Ok? && MemberValues(depth, m) == ReadMembers(depth, s).value
    && gap + s == MembersWritten(m, "}" + ReadMembers(depth, s).rest)
  }

  /** Whatever the decoder reads is the text of some grammar text with that value, and no more. */
  lemma {:induction false} ValueIsText(depth: nat, s: string) returns (t: Text)
    requires ReadValue(depth, s).Ok?
    ensures IsTextOf(depth, t, s)
    decreases |s|, 0
  {
    HeadAndRest(s, s[0]);
    if s[0] == '{' {
      hide ReadValue, IsTextOf;
      t := ObjectIsText(depth, s[1..]);
    } else if s[0] == '[' {
      hide ReadValue, IsTextOf;
      t := ArrayIsText(depth, s[1..]);
    } else {
      t := ScalarIsText(depth, s);
    }
  }

  lemma WordIsText(depth: nat, s: string)
    requires ReadValue(depth, s).Ok? && ("null" <= s || "true" <= s || "false" <= s)
    ensures IsTextOf(depth, if "null" <= s then NullText else BoolText("true" <= s), s)
  {
    hide ReadNumber, ReadChars, ReadItems, ReadMembers;
    assert s == s[..4] + s[4..];
    if s[0] == 'f' {
      assert s == s[..5] + s[5..];
    }
  }

  lemma StringIsText(depth: nat, s: string) returns (t: Text)
    requires ReadValue(depth, s).Ok? && s[0] == '"'
    ensures IsTextOf(depth, t, s)
  {
    HeadAndRest(s, s[0]);
    var pieces := CharsAreText(s[1..]);
    t := StringText(pieces);
    hide ReadChars, PiecesText, PointsOf;
  }

  lemma ScalarIsText(depth: nat, s: string) returns (t: Text)
    requires ReadValue(depth, s).Ok? && s[0] != '{' && s[0] != '['
    ensures IsTextOf(depth, t, s)
  {
    hide ReadNumber, Lexeme;
    if s[0] == '"' {
      t := StringIsText(depth, s);
      hide IsTextOf;
    } else if "null" <= s || "true" <= s || "false" <= s {
      WordIsText(depth, s);
      t := if "null" <= s then NullText else BoolText("true" <= s);
      hide IsTextOf;
    } else {
      t := NumberIsText(depth, s);
    }
  }

  lemma EmptyArrayIsText(depth: nat, s: string)
    requires depth > 0 && SkipGap(s) != "" && SkipGap(s)[0] == ']'
    ensures IsTextOf(depth, EmptyArray(SkippedGap(s)), "[" + s)
  {
    hide ReadValue, ReadItems, SkipGap, SkippedGap, AllGap;
    ArrayOpens(depth, s);
    GapThen(s, ']');
  }

  lemma ArrayAssembles(depth: nat, s: string, items: Items)
    requires depth > 0 && SkipGap(s) != "" && SkipGap(s)[0] != ']'
    requires AreItemsOf(depth - 1, items, SkippedGap(s), SkipGap(s))
    ensures IsTextOf(depth, ArrayText(items), "[" + s)
  {
    hide ReadValue, ReadItems, SkipGap, SkippedGap, ItemsFit, ItemsWritten, ItemValues;
    ArrayOpens(depth, s);
    assert SkippedGap(s) + SkipGap(s) == s;
  }

  lemma {:induction false} ArrayIsText(depth: nat, s: string) returns (t: Text)
    requires ReadValue(depth, "[" + s).Ok?
    ensures IsTextOf(depth, t, "[" + s)
    decreases |s|, 2
  {
    hide ReadValue, ReadItems, SkippedGap, AreItemsOf, IsTextOf, AllGap, SkipGap;
    ArrayReads(depth, s);
    if SkipGap(s)[0] == ']' {
      EmptyArrayIsText(depth, s);
      t := EmptyArray(SkippedGap(s));
    } else {
      SkippedIsGap(s);
      var items := ItemsAreText(depth - 1, SkippedGap(s), SkipGap(s));
      ArrayAssembles(depth, s, items);
      t := ArrayText(items);
    }
  }

  lemma LastItemAssembles(depth: nat, gap: string, s: string, value: Text, rest: string)
    requires AllGap(gap) && IsTextOf(depth, value, s) && rest == ReadValue(depth, s).rest
    requires SkipGap(rest) != "" && SkipGap(rest)[0] == ']'
    ensures AreItemsOf(depth, LastItem(gap, value, SkippedGap(rest)), gap, s)
  {
    GapThen(rest, ']');
    hide ReadValue, Fits, Written, Value, SkipGap, SkippedGap, AllGap;
  }

  lemma ItemsReadOn(depth: nat, s: string)
    requires ReadValue(depth, s).Ok?
    requires var rest := SkipGap(ReadValue(depth, s).rest); rest != "" && rest[0] == ','
    ensures ReadItems(depth, s) ==
            match ReadItems(depth, SkipGap(SkipGap(ReadValue(depth, s).rest)[1..]))
            case Ok(more, end) => Ok([ReadValue(depth, s).value] + more, end)
            case Malformed => Malformed
  {
    hide ReadValue, SkipGap;
  }

  lemma MoreItemsAssemble(depth: nat, gap: string, s: string, value: Text, rest: string, next: string, more: Items)
    requires AllGap(gap) && IsTextOf(depth, value, s) && rest == ReadValue(depth, s).rest
    requires SkipGap(rest) != "" && SkipGap(rest)[0] == ',' && next == SkipGap(rest)[1..]
    requires AreItemsOf(depth, more, SkippedGap(next), SkipGap(next))
    ensures AreItemsOf(depth, MoreItems(gap, value, SkippedGap(rest), more), gap, s)
  {
    hide ReadValue, ReadItems, Fits, Written, Value, SkipGap, SkippedGap, AllGap;
    GapThen(rest, ',');
    ItemsReadOn(depth, s);
    SkippedIsGap(next);
    assert rest == SkippedGap(rest) + ("," + next);
  }

  lemma {:induction false} ItemsAreText(depth: nat, gap: string, s: string) returns (items: Items)
    requires AllGap(gap) && ReadItems(depth, s).Ok?
    ensures AreItemsOf(depth, items, gap, s)
    decreases |s|, 1
  {
    var value := ValueIsText(depth, s);
    var rest := ReadValue(depth, s).rest;
    var after := SkipGap(rest);
    hide ReadValue, SkippedGap, AllGap, IsTextOf, AreItemsOf;
    if after[0] == ']' {
      LastItemAssembles(depth, gap, s, value, rest);
      items := LastItem(gap, value, SkippedGap(rest));
    } else {
      var next := after[1..];
      SkippedIsGap(next);
      var more := ItemsAreText(depth, SkippedGap(next), SkipGap(next));
      MoreItemsAssemble(depth, gap, s, value, rest, next, more);
      items := MoreItems(gap, value, SkippedGap(rest), more);
    }
  }

  lemma EmptyObjectIsText(depth: nat, s: string)
    requires depth > 0 && SkipGap(s) != "" && SkipGap(s)[0] == '}'
    ensures IsTextOf(depth, EmptyObject(SkippedGap(s)), "{" + s)
  {
    hide ReadValue, ReadMembers, SkipGap, SkippedGap, AllGap, FieldsOf;
    ObjectOpens(depth, s);
    GapThen(s, '}');
  }

  lemma ObjectAssembles(depth: nat, s: string, members: Members)
    requires depth > 0 && SkipGap(s) != "" && SkipGap(s)[0] != '}'
    requires AreMembersOf(depth - 1, members, SkippedGap(s), SkipGap(s))
    ensures IsTextOf(depth, ObjectText(members), "{" + s)
  {
    hide ReadValue, ReadMembers, SkipGap, SkippedGap, MembersFit, MembersWritten, MemberValues, FieldsOf;
    ObjectOpens(depth, s);
    assert SkippedGap(s) + SkipGap(s) == s;
  }

  lemma {:induction false} ObjectIsText(depth: nat, s: string) returns (t: Text)
    requires ReadValue(depth, "{" + s).Ok?
    ensures IsTextOf(depth, t, "{" + s)
    decreases |s|, 2
  {
    hide ReadValue, ReadMembers, SkippedGap, AreMembersOf, IsTextOf, AllGap, SkipGap;
    ObjectReads(depth, s);
    if SkipGap(s)[0] == '}' {
      EmptyObjectIsText(depth, s);
      t := EmptyObject(SkippedGap(s));
    } else {
      SkippedIsGap(s);
      var members := MembersAreText(depth - 1, SkippedGap(s), SkipGap(s));
      ObjectAssembles(depth, s, members);
      t := ObjectText(members);
    }
  }

  /** What reading a member's key, colon and value says of the text. */
  lemma MemberReads(depth: nat, s: string) returns (key: seq<Piece>, beforeColon: string, afterColon: string, start: string)
    requires ReadMembers(depth, s).Ok?
    ensures PiecesFit(key) && AllGap(beforeColon) && AllGap(afterColon) && |start| < |s|
    ensures s == Quoted(key, beforeColon + (":" + (afterColon + start)))
    ensures ReadValue(depth, start).Ok?
    ensures var field := (PointsOf(key), ReadValue(depth, start).value);
            ReadMembers(depth, s) == MembersFrom(depth, field, SkipGap(ReadValue(depth, start).rest))
  {
    HeadAndRest(s, '"');
    key := CharsAreText(s[1..]);
    var afterKey := ReadChars(s[1..]).rest;
    var colon := SkipGap(afterKey);
    hide SkipGap, SkippedGap, AllGap, ReadValue, ReadChars, PiecesText, PiecesFit, PointsOf, MembersFrom;
    GapThen(afterKey, ':');
    beforeColon := SkippedGap(afterKey);
    start := SkipGap(colon[1..]);
    SkippedIsGap(colon[1..]);
    afterColon := SkippedGap(colon[1..]);
  }

  lemma LastMemberAssembles(depth: nat, gap: string, s: string, m: Members, start: string, rest: string)
    requires m.LastMember? && m.before == gap && AllGap(gap) && PiecesFit(m.key)
    requires AllGap(m.beforeColon) && AllGap(m.afterColon)
    requires s == Quoted(m.key, m.beforeColon + (":" + (m.afterColon + start)))
    requires IsTextOf(depth, m.value, start) && rest == ReadValue(depth, start).rest
    requires SkipGap(rest) != "" && SkipGap(rest)[0] == '}' && m.after == SkippedGap(rest)
    requires ReadMembers(depth, s)
             == MembersFrom(depth, (PointsOf(m.key), ReadValue(depth, start).value), SkipGap(rest))
    ensures AreMembersOf(depth, m, gap, s)
  {
    GapThen(rest, '}');
    hide ReadValue, Fits, Written, Value, SkipGap, SkippedGap, AllGap, Quoted, PiecesFit, PointsOf, ReadMembers;
  }

  lemma MoreMembersAssemble(depth: nat, gap: string, s: string, m: Members, start: string, rest: string, next: string)
    requires m.MoreMembers? && m.before == gap && AllGap(gap) && PiecesFit(m.key)
    requires AllGap(m.beforeColon) && AllGap(m.afterColon)
    requires s == Quoted(m.key, m.beforeColon + (":" + (m.afterColon + start)))
    requires IsTextOf(depth, m.value, start) && rest == ReadValue(depth, start).rest
    requires SkipGap(rest) != "" && SkipGap(rest)[0] == ',' && m.after == SkippedGap(rest)
    requires next == SkipGap(rest)[1..] && AreMembersOf(depth, m.rest, SkippedGap(next), SkipGap(next))
    requires ReadMembers(depth, s)
             == MembersFrom(depth, (PointsOf(m.key), ReadValue(depth, start).value), SkipGap(rest))
    ensures AreMembersOf(depth, m, gap, s)
  {
    hide ReadValue, Fits, Written, Value, SkipGap, SkippedGap, AllGap, Quoted, PiecesFit, PointsOf, ReadMembers;
    GapThen(rest, ',');
    assert rest == m.after + ("," + next);
  }

  lemma {:induction false} MembersAreText(depth: nat, gap: string, s: string) returns (m: Members)
    requires AllGap(gap) && ReadMembers(depth, s).Ok?
    ensures AreMembersOf(depth, m, gap, s)
    decreases |s|, 1
  {
    var key, beforeColon, afterColon, start := MemberReads(depth, s);
    var value := ValueIsText(depth, start);
    var rest := ReadValue(depth, start).rest;
    var after := SkipGap(rest);
    hide ReadValue, ReadMembers, SkippedGap, AllGap, IsTextOf, AreMembersOf, Quoted, PiecesFit, PointsOf, SkipGap;
    if after[0] == '}' {
      m := LastMember(gap, key, beforeColon, afterColon, value, SkippedGap(rest));
      LastMemberAssembles(depth, gap, s, m, start, rest);
    } else {
      var next := after[1..];
      SkippedIsGap(next);
      var more := MembersAreText(depth, SkippedGap(next), SkipGap(next));
      m := MoreMembers(gap, key, beforeColon, afterColon, value, SkippedGap(rest), more);
      MoreMembersAssemble(depth, gap, s, m, start, rest, next);
    }
  }
}
