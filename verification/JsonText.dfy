/** JSON values, the texts of the grammar that stand for them (RFC 8259), and the decoder that reads one
    value from the front of a text as `json.JSONDecoder.raw_decode` does. */
module JsonText {

  import opened Wire

  /** Strings are code points, so that a lone surrogate escape has a place; numbers keep their lexeme. */
  type Points = seq<int>

  datatype Json =
    | Null | Bool(b: bool) | Number(lexeme: string) | Str(points: Points)
    | Array(items: seq<Json>) | Object(fields: map<Points, Json>)

  datatype Read<T> = Ok(value: T, rest: string) | Malformed

  // ---------------------------------------------------------------- the decoder

  /** The longest integer the interpreter converts, in digits. */
  const MAX_INTEGER_DIGITS := 4300

  predicate Gap(c: char) {
    c in {' ', '\t', '\n', '\r'}
  }

  function SkipGap(s: string): (rest: string)
    ensures |rest| <= |s| && rest == s[|s| - |rest|..]
    ensures rest == "" || !Gap(rest[0])
  {
    if s != "" && Gap(s[0]) then SkipGap(s[1..]) else s
  }

  predicate Digit(c: char) {
    '0' <= c <= '9'
  }

  function Digits(s: string): (n: nat)
    ensures n <= |s| && (n < |s| ==> !Digit(s[n]))
    ensures forall i :: 0 <= i < n ==> Digit(s[i])
  {
    if s != "" && Digit(s[0]) then 1 + Digits(s[1..]) else 0
  }

  predicate HexDigit(c: char) {
    Digit(c) || 'a' <= c <= 'f' || 'A' <= c <= 'F'
  }

  function HexValue(c: char): (v: int)
    requires HexDigit(c)
    ensures 0 <= v < 16
  {
    if Digit(c) then c as int - '0' as int
    else if 'a' <= c <= 'f' then c as int - 'a' as int + 10
    else c as int - 'A' as int + 10
  }

  predicate Hex4(s: string) {
    |s| == 4 && HexDigit(s[0]) && HexDigit(s[1]) && HexDigit(s[2]) && HexDigit(s[3])
  }

  function Hex4Value(s: string): (v: int)
    requires Hex4(s)
    ensures 0 <= v < 0x1_0000
  {
    ((HexValue(s[0]) * 16 + HexValue(s[1])) * 16 + HexValue(s[2])) * 16 + HexValue(s[3])
  }

  /** The four digits of a `\u` escape the text starts with. */
  function EscapeDigits(s: string): Option<string> {
    if |s| >= 6 && s[0] == '\\' && s[1] == 'u' && Hex4(s[2..6]) then Some(s[2..6]) else None
  }

  predicate High(unit: int) {
    0xD800 <= unit <= 0xDBFF
  }

  predicate Low(unit: int) {
    0xDC00 <= unit <= 0xDFFF
  }

  function Join(high: int, low: int): int {
    0x1_0000 + (high - 0xD800) * 0x400 + (low - 0xDC00)
  }

  const SHORT_ESCAPES := map['"' := 34, '\\' := 92, '/' := 47, 'b' := 8, 'f' := 12, 'n' := 10, 'r' := 13, 't' := 9]

  function Prepended(point: int, r: Read<Points>): Read<Points> {
    match r
    case Ok(points, rest) => Ok([point] + points, rest)
    case Malformed => Malformed
  }

  /** The characters of a string, its opening quote already read. */
  function ReadChars(s: string): (r: Read<Points>)
    ensures r.Ok? ==> |r.rest| < |s|
    decreases |s|
  {
    if s == "" then Malformed
    else if s[0] == '"' then Ok([], s[1..])
    else if s[0] == '\\' then
      if |s| > 1 && s[1] in SHORT_ESCAPES then Prepended(SHORT_ESCAPES[s[1]], ReadChars(s[2..]))
      else
        var digits := EscapeDigits(s);
        if digits.None? then Malformed
        else
          var unit := Hex4Value(digits.value);
          var second := EscapeDigits(s[6..]);
          if High(unit) && second.Some? && Low(Hex4Value(second.value))
          then Prepended(Join(unit, Hex4Value(second.value)), ReadChars(s[12..]))
          else Prepended(unit, ReadChars(s[6..]))
    else if s[0] < ' ' then Malformed
    else Prepended(s[0] as int, ReadChars(s[1..]))
  }

  function FractionLength(s: string): (n: nat)
    ensures n <= |s|
  {
    if s != "" && s[0] == '.' && Digits(s[1..]) > 0 then 1 + Digits(s[1..]) else 0
  }

  function ExponentLength(s: string): (n: nat)
    ensures n <= |s|
  {
    if s == "" || s[0] !in {'e', 'E'} then 0
    else
      var sign := if |s| > 1 && s[1] in {'+', '-'} then 1 else 0;
      if Digits(s[1 + sign..]) > 0 then 1 + sign + Digits(s[1 + sign..]) else 0
  }

  function SignLength(s: string): (n: nat)
    ensures n <= |s|
  {
    if s != "" && s[0] == '-' then 1 else 0
  }

  function WholeLength(s: string): (n: nat)
    ensures n <= |s|
  {
    if s != "" && s[0] == '0' then 1 else Digits(s)
  }

  function Split(s: string, n: nat): (string, string)
    requires n <= |s|
  {
    (s[..n], s[n..])
  }

  /** The longest number the text starts with. */
  function ReadNumber(s: string): (r: Read<Json>)
    ensures r.Ok? ==> |r.rest| < |s|
  {
    var (sign, afterSign) := Split(s, SignLength(s));
    var (whole, afterWhole) := Split(afterSign, WholeLength(afterSign));
    var (fraction, afterFraction) := Split(afterWhole, FractionLength(afterWhole));
    var (exponent, rest) := Split(afterFraction, ExponentLength(afterFraction));
    if whole == "" || (fraction == "" && exponent == "" && |whole| > MAX_INTEGER_DIGITS) then Malformed
    else Ok(Number(sign + (whole + (fraction + exponent))), rest)
  }

  function ReadWord(s: string): (r: Read<Json>)
    ensures r.Ok? ==> |r.rest| < |s|
  {
    if "null" <= s then Ok(Null, s[4..])
    else if "true" <= s then Ok(Bool(true), s[4..])
    else if "false" <= s then Ok(Bool(false), s[5..])
    else ReadNumber(s)
  }

  /** One value from the front of the text, at most `depth` containers deep. */
  function ReadValue(depth: nat, s: string): (r: Read<Json>)
    ensures r.Ok? ==> |r.rest| < |s|
    decreases |s|, 0
  {
    if s == "" then Malformed
    else if s[0] == '"' then
      match ReadChars(s[1..]) case Ok(points, rest) => Ok(Str(points), rest) case Malformed => Malformed
    else if s[0] == '{' then
      var inside := SkipGap(s[1..]);
      if depth == 0 then Malformed
      else if inside != "" && inside[0] == '}' then Ok(Object(map[]), inside[1..])
      else match ReadMembers(depth - 1, inside) case Ok(ms, rest) => Ok(Object(FieldsOf(ms)), rest) case Malformed => Malformed
    else if s[0] == '[' then
      var inside := SkipGap(s[1..]);
      if depth == 0 then Malformed
      else if inside != "" && inside[0] == ']' then Ok(Array([]), inside[1..])
      else match ReadItems(depth - 1, inside) case Ok(items, rest) => Ok(Array(items), rest) case Malformed => Malformed
    else ReadWord(s)
  }

  /** The items of an array up to its closing bracket, from the first character of an item on. */
  function ReadItems(depth: nat, s: string): (r: Read<seq<Json>>)
    ensures r.Ok? ==> |r.rest| < |s|
    decreases |s|, 1
  {
    match ReadValue(depth, s)
    case Malformed => Malformed
    case Ok(value, rest) =>
      var after := SkipGap(rest);
      if after == "" then Malformed
      else if after[0] == ']' then Ok([value], after[1..])
      else if after[0] == ',' then
        match ReadItems(depth, SkipGap(after[1..])) case Ok(more, end) => Ok([value] + more, end) case Malformed => Malformed
      else Malformed
  }

  type Field = (Points, Json)

  /** The members of an object up to its closing brace, from the first character of a key on. */
  function ReadMembers(depth: nat, s: string): (r: Read<seq<Field>>)
    ensures r.Ok? ==> |r.rest| < |s|
    decreases |s|, 1
  {
    if s == "" || s[0] != '"' then Malformed
    else
      match ReadChars(s[1..])
      case Malformed => Malformed
      case Ok(key, rest) =>
        var colon := SkipGap(rest);
        if colon == "" || colon[0] != ':' then Malformed
        else
          match ReadValue(depth, SkipGap(colon[1..]))
          case Malformed => Malformed
          case Ok(value, rest) => MembersFrom(depth, (key, value), SkipGap(rest))
  }

  /** The members from `field` on, once its value and the gap after it are read. */
  function MembersFrom(depth: nat, field: Field, after: string): (r: Read<seq<Field>>)
    ensures r.Ok? ==> |r.rest| < |after|
    decreases |after|, 2
  {
    if after == "" then Malformed
    else if after[0] == '}' then Ok([field], after[1..])
    else if after[0] == ',' then
      match ReadMembers(depth, SkipGap(after[1..]))
      case Ok(more, end) => Ok([field] + more, end)
      case Malformed => Malformed
    else Malformed
  }

  /** Of the members with one key the last one counts. */
  function FieldsOf(ms: seq<Field>): map<Points, Json> {
    if ms == [] then map[] else map[ms[0].0 := ms[0].1] + FieldsOf(ms[1..])
  }

  // ---------------------------------------------------------------- the texts of the grammar

  datatype Piece = Plain(c: char) | Short(e: char) | Unit(digits: string)

  /** A text of the grammar, with the gaps, escapes and lexemes its writer chose. */
  datatype Text =
    | NullText | BoolText(b: bool) | StringText(pieces: seq<Piece>)
    | NumberText(minus: bool, whole: string, fraction: string, exponent: string)
    | EmptyArray(gap: string) | ArrayText(items: Items)
    | EmptyObject(gap: string) | ObjectText(members: Members)

  datatype Items =
    | LastItem(before: string, value: Text, after: string)
    | MoreItems(before: string, value: Text, after: string, rest: Items)

  datatype Members =
    | LastMember(before: string, key: seq<Piece>, beforeColon: string, afterColon: string, value: Text, after: string)
    | MoreMembers(before: string, key: seq<Piece>, beforeColon: string, afterColon: string, value: Text, after: string,
                  rest: Members)

  function PieceText(p: Piece): string {
    match p
    case Plain(c) => [c]
    case Short(e) => ['\\', e]
    case Unit(digits) => "\\u" + digits
  }

  function PiecesText(ps: seq<Piece>): string {
    if ps == [] then "" else PieceText(ps[0]) + PiecesText(ps[1..])
  }

  function Quoted(ps: seq<Piece>, tail: string): string {
    "\"" + (PiecesText(ps) + ("\"" + tail))
  }

  function Lexeme(t: Text): string
    requires t.NumberText?
  {
    (if t.minus then "-" else "") + (t.whole + (t.fraction + t.exponent))
  }

  /** The text followed by `tail`. */
  function Written(t: Text, tail: string): string
    decreases t
  {
    match t
    case NullText => "null" + tail
    case BoolText(b) => (if b then "true" else "false") + tail
    case StringText(pieces) => Quoted(pieces, tail)
    case NumberText(_, _, _, _) => Lexeme(t) + tail
    case EmptyArray(gap) => "[" + (gap + ("]" + tail))
    case ArrayText(items) => "[" + ItemsWritten(items, "]" + tail)
    case EmptyObject(gap) => "{" + (gap + ("}" + tail))
    case ObjectText(members) => "{" + MembersWritten(members, "}" + tail)
  }

  function ItemsWritten(items: Items, tail: string): string
    decreases items
  {
    match items
    case LastItem(before, value, after) => before + Written(value, after + tail)
    case MoreItems(before, value, after, rest) => before + Written(value, after + ("," + ItemsWritten(rest, tail)))
  }

  function MembersWritten(m: Members, tail: string): string
    decreases m
  {
    match m
    case LastMember(before, key, beforeColon, afterColon, value, after) =>
      before + Quoted(key, beforeColon + (":" + (afterColon + Written(value, after + tail))))
    case MoreMembers(before, key, beforeColon, afterColon, value, after, rest) =>
      before + Quoted(key, beforeColon + (":" + (afterColon + Written(value, after + ("," + MembersWritten(rest, tail))))))
  }

  predicate AllGap(s: string) {
    forall i :: 0 <= i < |s| ==> Gap(s[i])
  }

  predicate AllDigits(s: string) {
    s != "" && forall i :: 0 <= i < |s| ==> Digit(s[i])
  }

  predicate PieceFits(p: Piece) {
    match p
    case Plain(c) => c >= ' ' && c != '"' && c != '\\'
    case Short(e) => e in SHORT_ESCAPES
    case Unit(digits) => Hex4(digits)
  }

  predicate PiecesFit(ps: seq<Piece>) {
    forall i :: 0 <= i < |ps| ==> PieceFits(ps[i])
  }

  predicate FractionFits(s: string) {
    s == "" || (s[0] == '.' && AllDigits(s[1..]))
  }

  predicate ExponentFits(s: string) {
    s == "" || (s[0] in {'e', 'E'} && (AllDigits(s[1..]) || (|s| > 1 && s[1] in {'+', '-'} && AllDigits(s[2..]))))
  }

  /** The rules of the grammar, and the interpreter's limits on depth and integer digits. */
  predicate Fits(depth: nat, t: Text) {
    match t
    case NullText => true
    case BoolText(_) => true
    case StringText(pieces) => PiecesFit(pieces)
    case NumberText(_, whole, fraction, exponent) =>
      && AllDigits(whole) && (whole[0] == '0' ==> |whole| == 1) && FractionFits(fraction) && ExponentFits(exponent)
      && (fraction == "" && exponent == "" ==> |whole| <= MAX_INTEGER_DIGITS)
    case EmptyArray(gap) => depth > 0 && AllGap(gap)
    case ArrayText(items) => depth > 0 && ItemsFit(depth - 1, items)
    case EmptyObject(gap) => depth > 0 && AllGap(gap)
    case ObjectText(members) => depth > 0 && MembersFit(depth - 1, members)
  }

  predicate ItemsFit(depth: nat, items: Items) {
    AllGap(items.before) && Fits(depth, items.value) && AllGap(items.after)
    && (items.MoreItems? ==> ItemsFit(depth, items.rest))
  }

  predicate MembersFit(depth: nat, m: Members) {
    AllGap(m.before) && PiecesFit(m.key) && AllGap(m.beforeColon) && AllGap(m.afterColon) && Fits(depth, m.value)
    && AllGap(m.after) && (m.MoreMembers? ==> MembersFit(depth, m.rest))
  }

  function PointOf(p: Piece): int
    requires PieceFits(p)
  {
    match p
    case Plain(c) => c as int
    case Short(e) => SHORT_ESCAPES[e]
    case Unit(digits) => Hex4Value(digits)
  }

  predicate Pairs(ps: seq<Piece>)
    requires PiecesFit(ps)
  {
    |ps| >= 2 && ps[0].Unit? && ps[1].Unit? && High(PointOf(ps[0])) && Low(PointOf(ps[1]))
  }

  /** The code points of a string: a high surrogate escape joins the low one right after it. */
  function PointsOf(ps: seq<Piece>): Points
    requires PiecesFit(ps)
  {
    if ps == [] then []
    else if Pairs(ps) then [Join(PointOf(ps[0]), PointOf(ps[1]))] + PointsOf(ps[2..])
    else [PointOf(ps[0])] + PointsOf(ps[1..])
  }

  function Value(depth: nat, t: Text): Json
    requires Fits(depth, t)
  {
    match t
    case NullText => Null
    case BoolText(b) => Bool(b)
    case StringText(pieces) => Str(PointsOf(pieces))
    case NumberText(_, _, _, _) => Number(Lexeme(t))
    case EmptyArray(_) => Array([])
    case ArrayText(items) => Array(ItemValues(depth - 1, items))
    case EmptyObject(_) => Object(map[])
    case ObjectText(members) => Object(FieldsOf(MemberValues(depth - 1, members)))
  }

  function ItemValues(depth: nat, items: Items): seq<Json>
    requires ItemsFit(depth, items)
  {
    match items
    case LastItem(_, value, _) => [Value(depth, value)]
    case MoreItems(_, value, _, rest) => [Value(depth, value)] + ItemValues(depth, rest)
  }

  function MemberValues(depth: nat, m: Members): seq<Field>
    requires MembersFit(depth, m)
  {
    match m
    case LastMember(_, key, _, _, value, _) => [(PointsOf(key), Value(depth, value))]
    case MoreMembers(_, key, _, _, value, _, rest) => [(PointsOf(key), Value(depth, value))] + MemberValues(depth, rest)
  }

  // ---------------------------------------------------------------- every text of the grammar is read back

  lemma {:induction false} GapIsSkipped(gap: string, s: string)
    requires AllGap(gap) && (s == "" || !Gap(s[0]))
    ensures SkipGap(gap + s) == s
    decreases |gap|
  {
    if gap == "" {
      assert gap + s == s;
    } else {
      assert (gap + s)[1..] == gap[1..] + s;
      GapIsSkipped(gap[1..], s);
    }
  }

  lemma {:induction false} DigitsAreRead(digits: string, s: string)
    requires (forall i :: 0 <= i < |digits| ==> Digit(digits[i])) && (s == "" || !Digit(s[0]))
    ensures Digits(digits + s) == |digits|
    decreases |digits|
  {
    if digits == "" {
      assert digits + s == s;
    } else {
      assert (digits + s)[1..] == digits[1..] + s;
      DigitsAreRead(digits[1..], s);
    }
  }

  lemma UnitIsRead(digits: string, s: string)
    requires Hex4(digits)
    ensures EscapeDigits(PieceText(Unit(digits)) + s) == Some(digits)
  {
    var text := PieceText(Unit(digits)) + s;
    assert text[2..6] == digits;
  }

  /** What follows a piece that does not pair starts no low surrogate escape. */
  lemma NoPairFollows(ps: seq<Piece>, tail: string)
    requires PiecesFit(ps) && ps != [] && !Pairs(ps) && ps[0].Unit? && High(PointOf(ps[0]))
    ensures var second := EscapeDigits(PiecesText(ps[1..]) + ("\"" + tail));
            second.None? || !Low(Hex4Value(second.value))
  {
    var more := ps[1..];
    var text := PiecesText(more) + ("\"" + tail);
    if more == [] {
      assert text[0] == '"';
    } else {
      assert text == PieceText(more[0]) + (PiecesText(more[1..]) + ("\"" + tail));
      assert PieceFits(ps[1]);
      match more[0]
      case Unit(digits) => UnitIsRead(digits, PiecesText(more[1..]) + ("\"" + tail));
      case Short(e) => assert text[0] == '\\' && text[1] == e;
      case Plain(c) => assert text[0] == c;
    }
  }

  /** A piece that joins no other one is read by itself. */
  lemma PieceIsRead(ps: seq<Piece>, tail: string)
    requires PiecesFit(ps) && ps != [] && !Pairs(ps)
    ensures var more := PiecesText(ps[1..]) + ("\"" + tail);
            ReadChars(PieceText(ps[0]) + more) == Prepended(PointOf(ps[0]), ReadChars(more))
  {
    var more := PiecesText(ps[1..]) + ("\"" + tail);
    var s := PieceText(ps[0]) + more;
    assert PieceFits(ps[0]);
    if ps[0].Unit? && High(PointOf(ps[0])) {
      NoPairFollows(ps, tail);
    }
    hide PiecesText, PiecesFit, PointsOf, Pairs;
    match ps[0]
    case Plain(c) => assert s[0] == c && s[1..] == more;
    case Short(e) => assert s[0] == '\\' && s[1] == e && s[2..] == more;
    case Unit(digits) =>
      UnitIsRead(digits, more);
      assert s[0] == '\\' && s[1] == 'u' && s[6..] == more;
  }

  lemma {:induction false} CharsAreRead(ps: seq<Piece>, tail: string)
    requires PiecesFit(ps)
    ensures ReadChars(PiecesText(ps) + ("\"" + tail)) == Ok(PointsOf(ps), tail)
    decreases |ps|
  {
    var s := PiecesText(ps) + ("\"" + tail);
    if ps == [] {
      assert s == "\"" + tail && s[1..] == tail;
    } else {
      assert s == PieceText(ps[0]) + (PiecesText(ps[1..]) + ("\"" + tail));
      hide ReadChars, PiecesText, PieceText, PieceFits;
      if Pairs(ps) {
        CharsAreRead(ps[2..], tail);
        PairIsRead(ps, tail);
      } else {
        CharsAreRead(ps[1..], tail);
        PieceIsRead(ps, tail);
      }
    }
  }

  lemma PairReads(high: string, low: string, rest: string)
    requires Hex4(high) && Hex4(low) && High(Hex4Value(high)) && Low(Hex4Value(low))
    ensures ReadChars(PieceText(Unit(high)) + (PieceText(Unit(low)) + rest))
            == Prepended(Join(Hex4Value(high), Hex4Value(low)), ReadChars(rest))
  {
    var more := PieceText(Unit(low)) + rest;
    var s := PieceText(Unit(high)) + more;
    UnitIsRead(high, more);
    UnitIsRead(low, rest);
    assert s[0] == '\\' && s[1] == 'u' && s[6..] == more && s[12..] == rest;
    hide EscapeDigits, Hex4Value, Hex4;
  }

  lemma PairText(ps: seq<Piece>, tail: string)
    requires |ps| >= 2
    ensures PiecesText(ps) + tail == PieceText(ps[0]) + (PieceText(ps[1]) + (PiecesText(ps[2..]) + tail))
  {
    assert ps[1..][1..] == ps[2..] && ps[1..][0] == ps[1];
    assert PiecesText(ps) == PieceText(ps[0]) + (PieceText(ps[1]) + PiecesText(ps[2..]));
    hide PiecesText, PieceText;
    Associates(PieceText(ps[0]), PieceText(ps[1]) + PiecesText(ps[2..]), tail);
    Associates(PieceText(ps[1]), PiecesText(ps[2..]), tail);
  }

  lemma Associates(a: string, b: string, c: string)
    ensures (a + b) + c == a + (b + c)
  {
  }

  lemma PairIsRead(ps: seq<Piece>, tail: string)
    requires PiecesFit(ps) && Pairs(ps)
    requires ReadChars(PiecesText(ps[2..]) + ("\"" + tail)) == Ok(PointsOf(ps[2..]), tail)
    ensures ReadChars(PiecesText(ps) + ("\"" + tail)) == Ok(PointsOf(ps), tail)
  {
    assert PieceFits(ps[0]) && PieceFits(ps[1]);
    PairText(ps, "\"" + tail);
    PairReads(ps[0].digits, ps[1].digits, PiecesText(ps[2..]) + ("\"" + tail));
    hide ReadChars, PiecesText, PieceText, Hex4Value, Hex4;
  }

  /** What may stand right after a number without being read as part of it. */
  predicate NumberEnds(tail: string) {
    tail == "" || !(Digit(tail[0]) || tail[0] in {'.', 'e', 'E'})
  }

  lemma FractionIsRead(fraction: string, tail: string)
    requires FractionFits(fraction) && (tail == "" || !(Digit(tail[0]) || tail[0] == '.'))
    ensures FractionLength(fraction + tail) == |fraction|
  {
    if fraction == "" {
      assert fraction + tail == tail;
    } else {
      assert (fraction + tail)[1..] == fraction[1..] + tail;
      DigitsAreRead(fraction[1..], tail);
    }
  }

  lemma ExponentIsRead(exponent: string, tail: string)
    requires ExponentFits(exponent) && NumberEnds(tail)
    ensures ExponentLength(exponent + tail) == |exponent|
  {
    var s := exponent + tail;
    if exponent == "" {
      assert s == tail;
    } else {
      var sign := if |exponent| > 1 && exponent[1] in {'+', '-'} then 1 else 0;
      assert s[1] == exponent[1];
      assert s[1 + sign..] == exponent[1 + sign..] + tail;
      DigitsAreRead(exponent[1 + sign..], tail);
    }
  }

  lemma SplitsAt(a: string, b: string)
    ensures Split(a + b, |a|) == (a, b)
  {
  }

  lemma SignIsRead(minus: bool, s: string)
    requires s != "" && Digit(s[0])
    ensures SignLength((if minus then "-" else "") + s) == if minus then 1 else 0
  {
    assert "" + s == s;
  }

  lemma WholeIsRead(whole: string, s: string)
    requires AllDigits(whole) && (whole[0] == '0' ==> |whole| == 1) && (s == "" || !Digit(s[0]))
    ensures WholeLength(whole + s) == |whole|
  {
    assert (whole + s)[0] == whole[0];
    DigitsAreRead(whole, s);
    hide Digits;
  }

  lemma ReadByParts(t: Text, s: string, afterSign: string, afterWhole: string, afterFraction: string, tail: string)
    requires t.NumberText? && t.whole != ""
    requires SignLength(s) <= |s| && Split(s, SignLength(s)) == (if t.minus then "-" else "", afterSign)
    requires Split(afterSign, WholeLength(afterSign)) == (t.whole, afterWhole)
    requires Split(afterWhole, FractionLength(afterWhole)) == (t.fraction, afterFraction)
    requires Split(afterFraction, ExponentLength(afterFraction)) == (t.exponent, tail)
    requires t.fraction == "" && t.exponent == "" ==> |t.whole| <= MAX_INTEGER_DIGITS
    ensures ReadNumber(s) == Ok(Number(Lexeme(t)), tail)
  {
    hide Split, SignLength, WholeLength, FractionLength, ExponentLength;
  }

  lemma NumberIsRead(depth: nat, t: Text, tail: string)
    requires t.NumberText? && Fits(depth, t) && NumberEnds(tail)
    ensures ReadNumber(Lexeme(t) + tail) == Ok(Number(Lexeme(t)), tail)
    ensures var s := Lexeme(t) + tail; s != "" && (Digit(s[0]) || s[0] == '-')
  {
    var sign := if t.minus then "-" else "";
    var afterFraction := t.exponent + tail;
    var afterWhole := t.fraction + afterFraction;
    var afterSign := t.whole + afterWhole;
    assert Digit(t.whole[0]) && afterSign[0] == t.whole[0];
    LexemeSplits(t, tail);
    AfterTheWhole(t, tail);
    SignIsRead(t.minus, afterSign);
    WholeIsRead(t.whole, afterWhole);
    FractionIsRead(t.fraction, afterFraction);
    ExponentIsRead(t.exponent, tail);
    SplitsAt(sign, afterSign);
    SplitsAt(t.whole, afterWhole);
    SplitsAt(t.fraction, afterFraction);
    SplitsAt(t.exponent, tail);
    assert sign + afterSign != "" && (sign + afterSign)[0] == if t.minus then '-' else t.whole[0];
    hide Split, SignLength, WholeLength, FractionLength, ExponentLength, ReadNumber, Lexeme, FractionFits, ExponentFits;
    ReadByParts(t, sign + afterSign, afterSign, afterWhole, afterFraction, tail);
  }

  lemma LexemeSplits(t: Text, tail: string)
    requires t.NumberText?
    ensures Lexeme(t) + tail == (if t.minus then "-" else "") + (t.whole + (t.fraction + (t.exponent + tail)))
  {
    var sign := if t.minus then "-" else "";
    Associates(sign, t.whole + (t.fraction + t.exponent), tail);
    Associates(t.whole, t.fraction + t.exponent, tail);
    Associates(t.fraction, t.exponent, tail);
  }

  lemma AfterTheWhole(t: Text, tail: string)
    requires t.NumberText? && FractionFits(t.fraction) && ExponentFits(t.exponent) && NumberEnds(tail)
    ensures var after := t.exponent + tail; after == "" || !(Digit(after[0]) || after[0] == '.')
    ensures var after := t.fraction + (t.exponent + tail); after == "" || !Digit(after[0])
  {
    var after := t.exponent + tail;
    if t.exponent == "" {
      assert after == tail;
    } else {
      assert after[0] == t.exponent[0];
    }
    if t.fraction == "" {
      assert t.fraction + after == after;
    } else {
      assert (t.fraction + after)[0] == '.';
    }
  }

  predicate Closer(c: char) {
    c in {',', ']', '}'}
  }

  lemma GapEndsANumber(gap: string, tail: string)
    requires AllGap(gap) && tail != "" && Closer(tail[0])
    ensures NumberEnds(gap + tail) && SkipGap(gap + tail) == tail
  {
    GapIsSkipped(gap, tail);
    if gap == "" {
      assert gap + tail == tail;
    } else {
      assert (gap + tail)[0] == gap[0];
    }
  }

  lemma SkipGapFirst(gap: string, s: string)
    requires AllGap(gap) && s != "" && !Gap(s[0])
    ensures SkipGap(gap + s) == s
  {
    GapIsSkipped(gap, s);
  }

  /** How a text of the grammar starts: neither with a gap nor with a closing bracket. */
  lemma TextStarts(depth: nat, t: Text, tail: string)
    requires Fits(depth, t)
    ensures var s := Written(t, tail); s != "" && !Gap(s[0]) && !Closer(s[0])
  {
    if t.NumberText? {
      LexemeSplits(t, tail);
      assert Digit(t.whole[0]);
      hide Lexeme;
      var sign := if t.minus then "-" else "";
      assert (sign + (t.whole + (t.fraction + (t.exponent + tail))))[0] == if t.minus then '-' else t.whole[0];
    }
  }

  lemma WordIsRead(depth: nat, t: Text, tail: string)
    requires t.NullText? || t.BoolText?
    ensures ReadValue(depth, Written(t, tail)) == Ok(Value(depth, t), tail)
  {
    var word := if t.NullText? then "null" else if t.b then "true" else "false";
    var s := word + tail;
    assert s[0] == word[0] && s[|word|..] == tail;
    assert s[1] == word[1];
  }

  lemma StringIsRead(depth: nat, pieces: seq<Piece>, tail: string)
    requires PiecesFit(pieces)
    ensures ReadValue(depth, Quoted(pieces, tail)) == Ok(Str(PointsOf(pieces)), tail)
  {
    assert Quoted(pieces, tail)[1..] == PiecesText(pieces) + ("\"" + tail);
    CharsAreRead(pieces, tail);
    hide ReadChars, PiecesText, PointsOf;
  }

  lemma NumberValueIsRead(depth: nat, t: Text, tail: string)
    requires t.NumberText? && Fits(depth, t) && NumberEnds(tail)
    ensures ReadValue(depth, Written(t, tail)) == Ok(Value(depth, t), tail)
  {
    NumberIsRead(depth, t, tail);
    hide Lexeme, ReadNumber, ReadValue, NumberEnds, Fits;
    StartsANumber(depth, Lexeme(t) + tail);
  }

  lemma StartsANumber(depth: nat, s: string)
    requires s != "" && (Digit(s[0]) || s[0] == '-')
    ensures ReadValue(depth, s) == ReadNumber(s)
  {
    hide ReadNumber;
  }

  /** An opening bracket and what stands inside, with the gap after the bracket skipped. */
  lemma ArrayOpens(depth: nat, inside: string)
    requires depth > 0 && SkipGap(inside) != ""
    ensures ReadValue(depth, "[" + inside) ==
            if SkipGap(inside)[0] == ']' then Ok(Array([]), SkipGap(inside)[1..])
            else match ReadItems(depth - 1, SkipGap(inside))
                 case Ok(items, rest) => Ok(Array(items), rest)
                 case Malformed => Malformed
  {
    assert ("[" + inside)[1..] == inside;
    hide ReadItems, SkipGap;
  }

  lemma ObjectOpens(depth: nat, inside: string)
    requires depth > 0 && SkipGap(inside) != ""
    ensures ReadValue(depth, "{" + inside) ==
            if SkipGap(inside)[0] == '}' then Ok(Object(map[]), SkipGap(inside)[1..])
            else match ReadMembers(depth - 1, SkipGap(inside))
                 case Ok(ms, rest) => Ok(Object(FieldsOf(ms)), rest)
                 case Malformed => Malformed
  {
    assert ("{" + inside)[1..] == inside;
    hide ReadMembers, SkipGap, FieldsOf;
  }

  lemma EmptyIsRead(depth: nat, t: Text, tail: string)
    requires (t.EmptyArray? || t.EmptyObject?) && Fits(depth, t)
    ensures ReadValue(depth, Written(t, tail)) == Ok(Value(depth, t), tail)
  {
    hide ReadValue, SkipGap;
    if t.EmptyArray? {
      SkipGapFirst(t.gap, "]" + tail);
      ArrayOpens(depth, t.gap + ("]" + tail));
      assert ("]" + tail)[1..] == tail;
    } else {
      SkipGapFirst(t.gap, "}" + tail);
      ObjectOpens(depth, t.gap + ("}" + tail));
      assert ("}" + tail)[1..] == tail;
    }
  }

  lemma FilledIsRead(depth: nat, t: Text, tail: string)
    requires (t.ArrayText? || t.ObjectText?) && Fits(depth, t)
    requires t.ArrayText? ==>
               var s := SkipGap(ItemsWritten(t.items, "]" + tail));
               s != "" && s[0] != ']' && ReadItems(depth - 1, s) == Ok(ItemValues(depth - 1, t.items), tail)
    requires t.ObjectText? ==>
               var s := SkipGap(MembersWritten(t.members, "}" + tail));
               s != "" && s[0] != '}' && ReadMembers(depth - 1, s) == Ok(MemberValues(depth - 1, t.members), tail)
    ensures ReadValue(depth, Written(t, tail)) == Ok(Value(depth, t), tail)
  {
    hide ReadValue, ReadItems, ReadMembers, SkipGap, FieldsOf;
    if t.ArrayText? {
      ArrayOpens(depth, ItemsWritten(t.items, "]" + tail));
    } else {
      ObjectOpens(depth, MembersWritten(t.members, "}" + tail));
    }
  }

  /** Every text of the grammar is read back to its value, whatever follows it; only a number must not
      be followed by what would lengthen it. */
  lemma {:induction false} ValueIsRead(depth: nat, t: Text, tail: string)
    requires Fits(depth, t) && (t.NumberText? ==> NumberEnds(tail))
    ensures ReadValue(depth, Written(t, tail)) == Ok(Value(depth, t), tail)
    decreases t
  {
    hide ReadValue, ReadItems, ReadMembers, SkipGap, PointsOf, FieldsOf, NumberEnds, ItemsWritten, MembersWritten, Quoted;
    match t
    case NullText => WordIsRead(depth, t, tail);
    case BoolText(_) => WordIsRead(depth, t, tail);
    case StringText(pieces) => StringIsRead(depth, pieces, tail);
    case NumberText(_, _, _, _) => NumberValueIsRead(depth, t, tail);
    case EmptyArray(_) => EmptyIsRead(depth, t, tail);
    case EmptyObject(_) => EmptyIsRead(depth, t, tail);
    case ArrayText(items) =>
      ItemsAreRead(depth - 1, items, tail);
      FilledIsRead(depth, t, tail);
    case ObjectText(members) =>
      MembersAreRead(depth - 1, members, tail);
      FilledIsRead(depth, t, tail);
  }

  lemma {:induction false} ItemsAreRead(depth: nat, items: Items, tail: string)
    requires ItemsFit(depth, items)
    ensures var s := SkipGap(ItemsWritten(items, "]" + tail));
            s != "" && s[0] != ']' && ReadItems(depth, s) == Ok(ItemValues(depth, items), tail)
    decreases items
  {
    var rest := if items.LastItem? then "]" + tail else "," + ItemsWritten(items.rest, "]" + tail);
    var s := Written(items.value, items.after + rest);
    GapEndsANumber(items.after, rest);
    TextStarts(depth, items.value, items.after + rest);
    SkipGapFirst(items.before, s);
    ValueIsRead(depth, items.value, items.after + rest);
    if items.LastItem? {
      assert rest[1..] == tail;
    } else {
      ItemsAreRead(depth, items.rest, tail);
      assert rest[1..] == ItemsWritten(items.rest, "]" + tail);
    }
    hide ReadValue, Written, ItemsWritten, Fits, Value, Gap, SkipGap, NumberEnds, AllGap;
  }

  lemma ReadsOneMember(depth: nat, s: string, key: Points, colon: string, value: Json, rest: string)
    requires s != "" && s[0] == '"' && colon != "" && colon[0] == ':'
    requires ReadChars(s[1..]).Ok? && ReadChars(s[1..]).value == key && SkipGap(ReadChars(s[1..]).rest) == colon
    requires ReadValue(depth, SkipGap(colon[1..])) == Ok(value, rest)
    ensures ReadMembers(depth, s) == MembersFrom(depth, (key, value), SkipGap(rest))
  {
    hide ReadValue, ReadChars, SkipGap, MembersFrom;
  }

  lemma {:induction false} MembersAreRead(depth: nat, m: Members, tail: string)
    requires MembersFit(depth, m)
    ensures var s := SkipGap(MembersWritten(m, "}" + tail));
            s != "" && s[0] != '}' && ReadMembers(depth, s) == Ok(MemberValues(depth, m), tail)
    decreases m
  {
    var rest := if m.LastMember? then "}" + tail else "," + MembersWritten(m.rest, "}" + tail);
    assert rest[1..] == if m.LastMember? then tail else MembersWritten(m.rest, "}" + tail);
    MemberIsRead(depth, m, rest) by {
      ValueIsRead(depth, m.value, m.after + rest) by { GapEndsANumber(m.after, rest); }
    }
    if m.MoreMembers? {
      MembersAreRead(depth, m.rest, tail);
    }
    hide ReadValue, Written, Fits, Value, Gap, SkipGap, NumberEnds, AllGap, ReadChars, PiecesText, PointsOf;
  }

  lemma MemberIsRead(depth: nat, m: Members, rest: string)
    requires MembersFit(depth, m) && rest != "" && Closer(rest[0])
    requires ReadValue(depth, Written(m.value, m.after + rest)) == Ok(Value(depth, m.value), m.after + rest)
    ensures var colon := ":" + (m.afterColon + Written(m.value, m.after + rest));
            var s := Quoted(m.key, m.beforeColon + colon);
            && SkipGap(m.before + s) == s && s != "" && s[0] == '"'
            && ReadMembers(depth, s) == MembersFrom(depth, (PointsOf(m.key), Value(depth, m.value)), rest)
  {
    var value := Written(m.value, m.after + rest);
    var colon := ":" + (m.afterColon + value);
    var s := Quoted(m.key, m.beforeColon + colon);
    GapEndsANumber(m.after, rest);
    TextStarts(depth, m.value, m.after + rest);
    SkipGapFirst(m.before, s);
    SkipGapFirst(m.beforeColon, colon);
    SkipGapFirst(m.afterColon, value);
    assert s[1..] == PiecesText(m.key) + ("\"" + (m.beforeColon + colon));
    CharsAreRead(m.key, m.beforeColon + colon);
    assert colon[1..] == m.afterColon + value;
    hide ReadValue, Written, Fits, Value, Gap, SkipGap, NumberEnds, AllGap, ReadChars, PiecesText, PointsOf, MembersFrom,
         ReadMembers;
    ReadsOneMember(depth, s, PointsOf(m.key), colon, Value(depth, m.value), m.after + rest);
  }
}
