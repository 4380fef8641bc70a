/** Bytes, and which of their sequences are well-formed UTF-8. */
module Utf8 {
  type Byte = b: int | 0 <= b < 256

  predicate Continuation(b: Byte) {
    0x80 <= b < 0xC0
  }

  /** Well-formed UTF-8 as in section 4 of RFC 3629: no overlong form, no surrogate. */
  predicate Valid(s: seq<Byte>)
    decreases |s|
  {
    if s == [] then true
    else if s[0] < 0x80 then Valid(s[1..])
    else if 0xC2 <= s[0] < 0xE0 then
      |s| >= 2 && Continuation(s[1]) && Valid(s[2..])
    else if 0xE0 <= s[0] < 0xF0 then
      && |s| >= 3 && Continuation(s[1]) && Continuation(s[2])
      && (s[0] == 0xE0 ==> s[1] >= 0xA0) && (s[0] == 0xED ==> s[1] < 0xA0)
      && Valid(s[3..])
    else if 0xF0 <= s[0] < 0xF5 then
      && |s| >= 4 && Continuation(s[1]) && Continuation(s[2]) && Continuation(s[3])
      && (s[0] == 0xF0 ==> s[1] >= 0x90) && (s[0] == 0xF4 ==> s[1] < 0x90)
      && Valid(s[4..])
    else false
  }

  predicate AllAscii(s: seq<Byte>) {
    forall i :: 0 <= i < |s| ==> s[i] < 0x80
  }

  lemma {:induction false} AsciiThenValid(a: seq<Byte>, b: seq<Byte>)
    requires AllAscii(a) && Valid(b)
    ensures Valid(a + b)
  {
    if a == [] {
      assert a + b == b;
    } else {
      assert (a + b)[1..] == a[1..] + b;
      AsciiThenValid(a[1..], b);
    }
  }

  // ---------------------------------------------------------------- what is well-formed

  /** A Unicode scalar value: a code point that is no surrogate. */
  predicate Scalar(cp: int) {
    0 <= cp < 0xD800 || 0xE000 <= cp < 0x11_0000
  }

  predicate AllScalar(cps: seq<int>) {
    forall i :: 0 <= i < |cps| ==> Scalar(cps[i])
  }

  /** The bytes of one scalar value, as section 3 of RFC 3629 lays them out. */
  function Encoded(cp: int): seq<Byte>
    requires Scalar(cp)
  {
    if cp < 0x80 then [cp]
    else if cp < 0x800 then [0xC0 + cp / 64, 0x80 + cp % 64]
    else if cp < 0x1_0000 then [0xE0 + cp / 4096, 0x80 + cp / 64 % 64, 0x80 + cp % 64]
    else [0xF0 + cp / 262144, 0x80 + cp / 4096 % 64, 0x80 + cp / 64 % 64, 0x80 + cp % 64]
  }

  function EncodedAll(cps: seq<int>): seq<Byte>
    requires AllScalar(cps)
  {
    if cps == [] then [] else Encoded(cps[0]) + EncodedAll(cps[1..])
  }

  lemma EncodedThenValid(cp: int, t: seq<Byte>)
    requires Scalar(cp) && Valid(t)
    ensures Valid(Encoded(cp) + t)
  {
    hide Valid;
    var e := Encoded(cp);
    var s := e + t;
    assert s[|e|..] == t && s[..|e|] == e;
    if cp < 0x80 {
      ByteThenValid(s);
    } else if cp < 0x800 {
      TwoThenValid(s);
    } else if cp < 0x1_0000 {
      ThreeThenValid(s);
    } else {
      FourThenValid(s);
    }
  }

  lemma ByteThenValid(s: seq<Byte>)
    requires |s| >= 1 && s[0] < 0x80 && Valid(s[1..])
    ensures Valid(s)
  {
  }

  lemma TwoThenValid(s: seq<Byte>)
    requires |s| >= 2 && 0xC2 <= s[0] < 0xE0 && Continuation(s[1]) && Valid(s[2..])
    ensures Valid(s)
  {
  }

  lemma ThreeThenValid(s: seq<Byte>)
    requires |s| >= 3 && 0xE0 <= s[0] < 0xF0 && Continuation(s[1]) && Continuation(s[2]) && Valid(s[3..])
    requires (s[0] == 0xE0 ==> s[1] >= 0xA0) && (s[0] == 0xED ==> s[1] < 0xA0)
    ensures Valid(s)
  {
  }

  lemma FourThenValid(s: seq<Byte>)
    requires |s| >= 4 && 0xF0 <= s[0] < 0xF5 && Continuation(s[1]) && Continuation(s[2]) && Continuation(s[3]) && Valid(s[4..])
    requires (s[0] == 0xF0 ==> s[1] >= 0x90) && (s[0] == 0xF4 ==> s[1] < 0x90)
    ensures Valid(s)
  {
  }

  /** Six more bits. */
  lemma SixBits(high: int, low: int)
    requires 0 <= low < 64
    ensures (high * 64 + low) / 64 == high && (high * 64 + low) % 64 == low
  {
  }

  lemma TwoBytes(a: int, b: int)
    requires 2 <= a < 32 && 0 <= b < 64
    ensures Scalar(a * 64 + b) && Encoded(a * 64 + b) == [0xC0 + a, 0x80 + b]
  {
    SixBits(a, b);
  }

  lemma ThreeBytes(a: int, b: int, c: int, cp: int)
    requires 0 <= a < 16 && 0 <= b < 64 && 0 <= c < 64 && (a == 0 ==> b >= 32) && (a == 13 ==> b < 32)
    requires cp == (a * 64 + b) * 64 + c
    ensures Scalar(cp) && Encoded(cp) == [0xE0 + a, 0x80 + b, 0x80 + c]
  {
    SixBits(a * 64 + b, c);
    SixBits(a, b);
    assert cp / 4096 == a;
  }

  lemma FourBytes(a: int, b: int, c: int, d: int, cp: int)
    requires 0 <= a < 5 && 0 <= b < 64 && 0 <= c < 64 && 0 <= d < 64 && (a == 0 ==> b >= 16) && (a == 4 ==> b < 16)
    requires cp == ((a * 64 + b) * 64 + c) * 64 + d
    ensures Scalar(cp) && Encoded(cp) == [0xF0 + a, 0x80 + b, 0x80 + c, 0x80 + d]
  {
    SixBits((a * 64 + b) * 64 + c, d);
    SixBits(a * 64 + b, c);
    SixBits(a, b);
    assert cp / 4096 == a * 64 + b && cp / 262144 == a;
  }

  /** The first scalar value of well-formed bytes takes as many of them as its encoding. */
  lemma FirstScalar(s: seq<Byte>)
    requires s != [] && Valid(s)
    ensures exists cp :: Scalar(cp) && Encoded(cp) <= s && Valid(s[|Encoded(cp)|..])
  {
    hide Encoded, Scalar;
    if s[0] < 0x80 {
      OneByte(s[0]);
      assert Encoded(s[0]) <= s;
    } else if s[0] < 0xE0 {
      var a, b := s[0] as int - 0xC0, s[1] as int - 0x80;
      TwoBytes(a, b);
      assert Encoded(a * 64 + b) <= s;
    } else if s[0] < 0xF0 {
      var a, b, c := s[0] as int - 0xE0, s[1] as int - 0x80, s[2] as int - 0x80;
      ThreeBytes(a, b, c, (a * 64 + b) * 64 + c);
      assert Encoded((a * 64 + b) * 64 + c) <= s;
    } else {
      var a, b, c, d := s[0] as int - 0xF0, s[1] as int - 0x80, s[2] as int - 0x80, s[3] as int - 0x80;
      FourBytes(a, b, c, d, ((a * 64 + b) * 64 + c) * 64 + d);
      assert Encoded(((a * 64 + b) * 64 + c) * 64 + d) <= s;
    }
  }

  lemma TakesSomeBytes(cp: int)
    requires Scalar(cp)
    ensures 1 <= |Encoded(cp)| <= 4
  {
  }

  lemma OneByte(b: int)
    requires 0 <= b < 0x80
    ensures Scalar(b) && Encoded(b) == [b]
  {
  }

  lemma {:induction false} EncodedAreValid(cps: seq<int>)
    requires AllScalar(cps)
    ensures Valid(EncodedAll(cps))
  {
    if cps != [] {
      EncodedAreValid(cps[1..]);
      EncodedThenValid(cps[0], EncodedAll(cps[1..]));
    }
  }

  lemma {:induction false} ValidAreEncoded(s: seq<Byte>)
    requires Valid(s)
    ensures exists cps :: AllScalar(cps) && EncodedAll(cps) == s
    decreases |s|
  {
    hide Valid, Encoded, Scalar, EncodedAll;
    if s == [] {
      NoneEncoded();
    } else {
      FirstScalar(s);
      var cp :| Scalar(cp) && Encoded(cp) <= s && Valid(s[|Encoded(cp)|..]);
      var n := |Encoded(cp)|;
      TakesSomeBytes(cp);
      ValidAreEncoded(s[n..]);
      var rest :| AllScalar(rest) && EncodedAll(rest) == s[n..];
      OneMoreEncoded(cp, rest);
      assert s == s[..n] + s[n..];
    }
  }

  lemma NoneEncoded()
    ensures AllScalar([]) && EncodedAll([]) == []
  {
  }

  lemma OneMoreEncoded(cp: int, rest: seq<int>)
    requires Scalar(cp) && AllScalar(rest)
    ensures AllScalar([cp] + rest) && EncodedAll([cp] + rest) == Encoded(cp) + EncodedAll(rest)
  {
    hide Encoded, Scalar;
    assert ([cp] + rest)[1..] == rest && ([cp] + rest)[0] == cp;
  }

  /** Bytes are well-formed exactly when they are the encoding of some scalar values. */
  lemma ValidIsTheEncoding(s: seq<Byte>)
    ensures Valid(s) <==> exists cps :: AllScalar(cps) && EncodedAll(cps) == s
  {
    hide Valid, EncodedAll;
    if Valid(s) {
      ValidAreEncoded(s);
    }
    forall cps | AllScalar(cps) && EncodedAll(cps) == s ensures Valid(s) {
      EncodedAreValid(cps);
    }
  }
}
