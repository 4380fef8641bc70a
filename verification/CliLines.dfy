/** The lines of a byte stream that arrives in pieces (src/agent_runtime/process.py:1287-1312). */
module CliLines {
  import opened Utf8

  const NEWLINE: Byte := 10

  type Bytes = seq<Byte>

  function LineLength(s: Bytes): (n: nat)
    ensures n <= |s| && (NEWLINE in s ==> 0 < n && s[n - 1] == NEWLINE && NEWLINE !in s[..n - 1])
  {
    if s == [] then 0 else if s[0] == NEWLINE then 1 else 1 + LineLength(s[1..])
  }

  /** The lines that are complete, each with its newline, and what follows the last of them. */
  function CompleteLines(s: Bytes): seq<Bytes>
    decreases |s|
  {
    if NEWLINE !in s then [] else [s[..LineLength(s)]] + CompleteLines(s[LineLength(s)..])
  }

  function Remainder(s: Bytes): Bytes
    decreases |s|
  {
    if NEWLINE !in s then s else Remainder(s[LineLength(s)..])
  }

  /** All lines of a stream that ended, the last one with or without a newline. */
  function AllLines(s: Bytes): seq<Bytes> {
    CompleteLines(s) + if Remainder(s) == [] then [] else [Remainder(s)]
  }

  function Joined(lines: seq<Bytes>): Bytes {
    if lines == [] then [] else lines[0] + Joined(lines[1..])
  }

  lemma {:induction false} LineLengthOfLonger(a: Bytes, b: Bytes)
    requires NEWLINE in a
    ensures LineLength(a + b) == LineLength(a)
    decreases |a|
  {
    if a[0] != NEWLINE {
      assert (a + b)[1..] == a[1..] + b;
      LineLengthOfLonger(a[1..], b);
    }
  }

  lemma FirstLineOf(a: Bytes, b: Bytes)
    requires NEWLINE in a
    ensures var n := LineLength(a);
            && CompleteLines(a + b) == [a[..n]] + CompleteLines(a[n..] + b)
            && Remainder(a + b) == Remainder(a[n..] + b)
  {
    var n := LineLength(a);
    LineLengthOfLonger(a, b);
    assert (a + b)[n - 1] == NEWLINE;
    assert (a + b)[..n] == a[..n] && (a + b)[n..] == a[n..] + b;
  }

  /** However the stream is cut, the lines are the same: what a piece leaves over joins the next piece. */
  lemma {:induction false} LinesOfPieces(a: Bytes, b: Bytes)
    ensures CompleteLines(a + b) == CompleteLines(a) + CompleteLines(Remainder(a) + b)
    ensures Remainder(a + b) == Remainder(Remainder(a) + b)
    decreases |a|
  {
    if NEWLINE !in a {
      assert [] + CompleteLines(a + b) == CompleteLines(a + b);
    } else {
      var rest := a[LineLength(a)..];
      var line := a[..LineLength(a)];
      FirstLineOf(a, b);
      FirstLineOf(a, []);
      LinesOfPieces(rest, b);
      assert a + [] == a && rest + [] == rest;
      hide CompleteLines, Remainder, LineLength;
      LinesAssociate([line], CompleteLines(rest), CompleteLines(Remainder(rest) + b));
    }
  }

  lemma LinesAssociate(a: seq<Bytes>, b: seq<Bytes>, c: seq<Bytes>)
    ensures (a + b) + c == a + (b + c)
  {
  }

  predicate OneLine(line: Bytes) {
    line != [] && line[|line| - 1] == NEWLINE && NEWLINE !in line[..|line| - 1]
  }

  /** The lines and the remainder are the stream, each line holds one newline, at its end, and the
      remainder holds none. */
  lemma {:induction false} LinesAreTheStream(s: Bytes)
    ensures Joined(CompleteLines(s)) + Remainder(s) == s
    ensures forall i :: 0 <= i < |CompleteLines(s)| ==> OneLine(CompleteLines(s)[i])
    ensures NEWLINE !in Remainder(s)
    decreases |s|
  {
    if NEWLINE in s {
      var line, rest := s[..LineLength(s)], s[LineLength(s)..];
      assert s == line + rest;
      assert OneLine(line);
      FirstLineOf(s, []);
      assert s + [] == s && rest + [] == rest;
      hide CompleteLines, Remainder, LineLength, OneLine;
      LinesAreTheStream(rest);
      assert CompleteLines(s)[1..] == CompleteLines(rest) && CompleteLines(s)[0] == line;
      BytesAssociate(line, Joined(CompleteLines(rest)), Remainder(rest));
    }
  }

  lemma BytesAssociate(a: Bytes, b: Bytes, c: Bytes)
    ensures (a + b) + c == a + (b + c)
  {
  }

  lemma AllLinesAreTheStream(s: Bytes)
    ensures Joined(AllLines(s)) == s
  {
    LinesAreTheStream(s);
    JoinedAppends(CompleteLines(s), if Remainder(s) == [] then [] else [Remainder(s)]);
    hide CompleteLines, Remainder;
    assert Joined([Remainder(s)]) == Remainder(s);
  }

  lemma {:induction false} JoinedAppends(a: seq<Bytes>, b: seq<Bytes>)
    ensures Joined(a + b) == Joined(a) + Joined(b)
    decreases |a|
  {
    if a == [] {
      assert a + b == b;
    } else {
      assert (a + b)[1..] == a[1..] + b;
      JoinedAppends(a[1..], b);
    }
  }
}
