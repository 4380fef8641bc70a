/** What the escapes of a JSON string stand for (sections 7 and 8 of RFC 8259), and which member of an object counts. */
module JsonEscapes {
  import opened JsonText

  /** The digit of a value, in either case. */
  function HexDigitOf(v: int, upper: bool): char
    requires 0 <= v < 16
  {
    if v < 10 then ('0' as int + v) as char
    else if upper then ('A' as int + v - 10) as char else ('a' as int + v - 10) as char
  }

  /** The four digits a UTF-16 code unit is written with, in either case. */
  function HexDigitsOf(unit: int, upper: bool): string
    requires 0 <= unit < 0x1_0000
  {
    [HexDigitOf(unit / 4096, upper), HexDigitOf(unit / 256 % 16, upper), HexDigitOf(unit / 16 % 16, upper), HexDigitOf(unit % 16, upper)]
  }

  lemma DigitsReadBack(v: int, upper: bool)
    requires 0 <= v < 16
    ensures HexDigit(HexDigitOf(v, upper)) && HexValue(HexDigitOf(v, upper)) == v
  {
  }

  /** Every code unit is read back from its four digits, in either case. */
  lemma UnitsReadBack(unit: int, upper: bool)
    requires 0 <= unit < 0x1_0000
    ensures Hex4(HexDigitsOf(unit, upper)) && Hex4Value(HexDigitsOf(unit, upper)) == unit
  {
    hide HexDigitOf, HexValue, HexDigit;
    SplitsInFour(unit);
    DigitsReadBack(unit / 4096, upper);
    DigitsReadBack(unit / 256 % 16, upper);
    DigitsReadBack(unit / 16 % 16, upper);
    DigitsReadBack(unit % 16, upper);
  }

  lemma OneDigit(n: int)
    ensures n == n / 16 * 16 + n % 16
  {
  }

  lemma SplitsInFour(unit: int)
    requires 0 <= unit < 0x1_0000
    ensures unit == ((unit / 4096 * 16 + unit / 256 % 16) * 16 + unit / 16 % 16) * 16 + unit % 16
    ensures 0 <= unit / 4096 < 16
  {
    OneDigit(unit);
    OneDigit(unit / 16);
    OneDigit(unit / 256);
    assert unit / 16 / 16 == unit / 256 && unit / 256 / 16 == unit / 4096;
  }

  /** Every code point outside the basic plane is read back from the surrogate pair it is written with. */
  lemma PairsReadBack(point: int)
    requires 0x1_0000 <= point < 0x11_0000
    ensures var high, low := 0xD800 + (point - 0x1_0000) / 1024, 0xDC00 + (point - 0x1_0000) % 1024;
            High(high) && Low(low) && Join(high, low) == point
  {
  }

  lemma ShortEscapesStandFor()
    ensures forall e :: e in SHORT_ESCAPES <==> e in {'"', '\\', '/', 'b', 'f', 'n', 'r', 't'}
    ensures forall e :: e in {'"', '\\', '/'} ==> SHORT_ESCAPES[e] == e as int
    ensures SHORT_ESCAPES['b'] == 0x08 && SHORT_ESCAPES['f'] == 0x0C && SHORT_ESCAPES['n'] == '\n' as int
    ensures SHORT_ESCAPES['r'] == '\r' as int && SHORT_ESCAPES['t'] == '\t' as int
  {
  }

  /** An object has the keys of its members, and of the members with one key the last one counts. */
  lemma {:induction false} TheLastMemberCounts(ms: seq<Field>)
    ensures forall key :: key in FieldsOf(ms) <==> HasKey(ms, key)
    ensures forall i :: 0 <= i < |ms| && !HasKey(ms[i + 1..], ms[i].0) ==>
              ms[i].0 in FieldsOf(ms) && FieldsOf(ms)[ms[i].0] == ms[i].1
  {
    if ms != [] {
      var rest := ms[1..];
      TheLastMemberCounts(rest);
      forall key ensures HasKey(ms, key) <==> ms[0].0 == key || HasKey(rest, key) {
        KeysOfLonger(ms, key);
      }
      hide HasKey;
      forall i | 0 <= i < |ms| && !HasKey(ms[i + 1..], ms[i].0)
        ensures ms[i].0 in FieldsOf(ms) && FieldsOf(ms)[ms[i].0] == ms[i].1
      {
        if i > 0 {
          assert rest[i - 1] == ms[i] && rest[i..] == ms[i + 1..];
        } else {
          assert ms[1..] == rest;
        }
      }
    }
  }

  ghost predicate HasKey(ms: seq<Field>, key: Points) {
    exists i :: 0 <= i < |ms| && ms[i].0 == key
  }

  lemma KeysOfLonger(ms: seq<Field>, key: Points)
    requires ms != []
    ensures HasKey(ms, key) <==> ms[0].0 == key || HasKey(ms[1..], key)
  {
    if HasKey(ms[1..], key) {
      var i :| 0 <= i < |ms[1..]| && ms[1..][i].0 == key;
      assert ms[i + 1].0 == key;
    }
    if i :| 0 <= i < |ms| && ms[i].0 == key && i > 0 {
      assert ms[1..][i - 1].0 == key;
    }
  }
}
