/** Markdown fences as the stream parser tracks them, line by line
    (src/agent_runtime/text_tool_protocol.py:288-301), and what the tracking means. */
module MarkdownFences {

  /** The characters `str.splitlines` breaks at; a carriage return takes a following line feed along. */
  predicate LineBreak(c: char) {
    c in {'\n', '\r', '\U{000B}', '\U{000C}', '\U{001C}', '\U{001D}', '\U{001E}',
          '\U{0085}', '\U{2028}', '\U{2029}'}
  }

  /** Where the first line of `text` ends, its line break included. */
  function LineEnd(text: string): (n: nat)
    requires text != ""
    ensures 0 < n <= |text|
    ensures forall i :: 0 <= i < n - 2 ==> !LineBreak(text[i])
    ensures n >= 2 && LineBreak(text[n - 2]) ==> text[n - 2] == '\r' && text[n - 1] == '\n'
    ensures n < |text| ==> LineBreak(text[n - 1])
    ensures n < |text| && text[n - 1] == '\r' ==> text[n] != '\n'
    decreases |text|
  {
    if text[0] == '\r' && |text| > 1 && text[1] == '\n' then 2
    else if LineBreak(text[0]) || |text| == 1 then 1
    else 1 + LineEnd(text[1..])
  }

  function WithoutBlanks(line: string): string {
    if line != "" && line[0] in {' ', '\t'} then WithoutBlanks(line[1..]) else line
  }

  function WithoutLineBreak(line: string): string {
    if line != "" && line[|line| - 1] in {'\r', '\n'} then WithoutLineBreak(line[..|line| - 1]) else line
  }

  const FENCE := "```"

  predicate FenceLine(line: string) {
    FENCE <= WithoutBlanks(WithoutLineBreak(line))
  }

  /** The fence state after the complete lines of `text`, and the line the tracking stopped at. */
  function Advance(inside: bool, text: string): (state: (bool, string))
    decreases |text|
  {
    if text == "" then (inside, "")
    else
      var n := LineEnd(text);
      if text[n - 1] != '\n' then (inside, text[..n])
      else Advance(inside != FenceLine(text[..n]), text[n..])
  }

  lemma AdvanceReadsALine(inside: bool, text: string)
    requires text != ""
    ensures var n := LineEnd(text);
            Advance(inside, text) == if text[n - 1] != '\n' then (inside, text[..n])
                                     else Advance(inside != FenceLine(text[..n]), text[n..])
  {
  }

  method AdvanceMarkdownFences(inside: bool, text: string) returns (fence: bool, linePrefix: string)
    ensures (fence, linePrefix) == Advance(inside, text)
  {
    fence, linePrefix := inside, "";
    var rest := text;
    hide Advance, FenceLine;
    while rest != ""
      invariant linePrefix == "" && Advance(inside, text) == Advance(fence, rest)
      decreases |rest|
    {
      AdvanceReadsALine(fence, rest);
      var n := LineEnd(rest);
      var line := rest[..n];
      if line[n - 1] != '\n' {
        return fence, line;
      }
      if FenceLine(line) {
        fence := !fence;
      }
      rest := rest[n..];
    }
    AdvanceReadsNothing(fence);
  }

  lemma AdvanceReadsNothing(inside: bool)
    ensures Advance(inside, "") == (inside, "")
  {
  }

  // ---------------------------------------------------------------- composition

  /** The tracking stops inside `text`, at a line that ends in a carriage return with no line feed after it. */
  predicate StopsAtReturn(text: string)
    decreases |text|
  {
    text != "" &&
    var n := LineEnd(text);
    if text[n - 1] == '\n' then StopsAtReturn(text[n..]) else n < |text| && text[n - 1] == '\r'
  }

  lemma {:induction false} LineEndOfLongerText(a: string, b: string)
    requires a != ""
    requires LineBreak(a[LineEnd(a) - 1]) && (a[LineEnd(a) - 1] == '\r' ==> LineEnd(a) < |a|)
    ensures LineEnd(a + b) == LineEnd(a)
    decreases |a|
  {
    if !LineBreak(a[0]) && |a| > 1 {
      assert (a + b)[1..] == a[1..] + b;
      LineEndOfLongerText(a[1..], b);
    }
  }

  lemma {:induction false} LineBreakStops(a: string, n: nat)
    requires a != "" && n == LineEnd(a)
    ensures LineEnd(a[..n]) == n
    decreases |a|
  {
    if !LineBreak(a[0]) && |a| > 1 {
      LineBreakStops(a[1..], n - 1);
      assert a[..n][1..] == a[1..][..n - 1];
    }
  }

  /** Tracking a text in two parts is tracking it whole: what the first part leaves is its state and
      the line it stopped at. */
  lemma {:induction false} TrackingComposes(inside: bool, a: string, b: string)
    requires !StopsAtReturn(a)
    ensures var (fence, linePrefix) := Advance(inside, a);
            Advance(fence, linePrefix + b) == Advance(inside, a + b)
    decreases |a|
  {
    if a == "" {
      assert a + b == b;
    } else {
      var n := LineEnd(a);
      var line := a[..n];
      if a[n - 1] == '\n' {
        FirstLineRead(inside, a, b);
        TrackingComposes(inside != FenceLine(line), a[n..], b);
      } else if n == |a| {
        assert line == a;
      } else {
        LineEndOfLongerText(a, b);
        LineBreakStops(a, n);
        LineEndOfLongerText(line, b);
        assert (a + b)[..n] == line == (line + b)[..n];
      }
    }
  }

  lemma FirstLineRead(inside: bool, text: string, more: string)
    requires text != "" && text[LineEnd(text) - 1] == '\n'
    ensures var n := LineEnd(text);
            Advance(inside, text + more) == Advance(inside != FenceLine(text[..n]), text[n..] + more)
  {
    var n := LineEnd(text);
    LineEndOfLongerText(text, more);
    assert (text + more)[..n] == text[..n] && (text + more)[n..] == text[n..] + more;
  }

  /** A line that ends in a carriage return takes a line feed along. */
  lemma {:induction false} ReturnTakesTheLineFeed(line: string, more: string)
    requires line != "" && LineEnd(line) == |line| && line[|line| - 1] == '\r'
    ensures LineEnd(line + "\n" + more) == |line| + 1
    decreases |line|
  {
    if |line| > 1 {
      assert (line + "\n" + more)[1..] == line[1..] + "\n" + more;
      ReturnTakesTheLineFeed(line[1..], more);
    }
  }

  lemma StoppingReadsALine(text: string)
    requires text != ""
    ensures var n := LineEnd(text);
            StopsAtReturn(text) <==> if text[n - 1] == '\n' then StopsAtReturn(text[n..]) else n < |text| && text[n - 1] == '\r'
  {
  }

  lemma {:induction false} StoppedTrackingStays(inside: bool, a: string, b: string)
    requires StopsAtReturn(a)
    ensures StopsAtReturn(a + b) && Advance(inside, a + b) == Advance(inside, a)
    ensures var line := Advance(inside, a).1;
            line != "" && LineEnd(line) == |line| && line[|line| - 1] == '\r'
    decreases |a|
  {
    hide Advance, FenceLine, LineBreak;
    var n := LineEnd(a);
    StoppingReadsALine(a);
    LineEndOfLongerText(a, b);
    StoppingReadsALine(a + b);
    AdvanceReadsALine(inside, a);
    AdvanceReadsALine(inside, a + b);
    hide StopsAtReturn, LineEnd;
    assert (a + b)[..n] == a[..n];
    if a[n - 1] == '\n' {
      assert (a + b)[n..] == a[n..] + b;
      StoppedTrackingStays(inside != FenceLine(a[..n]), a[n..], b);
    } else {
      LineBreakStops(a, n);
    }
  }

  /** After `line + "\n"` a fence mark turns the state over once more. */
  lemma LineFeedGoesOn(fence: bool, line: string)
    requires line != "" && LineEnd(line) == |line| && line[|line| - 1] == '\r'
    ensures Advance(fence, line + "\n").0 == !Advance(fence, line + "\n```\n").0
  {
    var mark := "```\n";
    ReturnTakesTheLineFeed(line, "");
    ReturnTakesTheLineFeed(line, mark);
    var ended := line + "\n";
    assert ended + "" == ended && line + "\n```\n" == ended + mark;
    assert (ended + mark)[..|ended|] == ended && (ended + mark)[|ended|..] == mark;
    assert ended[..|ended|] == ended && ended[|ended|..] == "";
    MarkTurnsOver(fence != FenceLine(ended));
    AdvanceReadsALine(fence, ended);
    AdvanceReadsALine(fence, ended + mark);
    hide LineEnd, FenceLine;
  }

  lemma MarkTurnsOver(fence: bool)
    ensures Advance(fence, "```\n") == (!fence, "")
  {
    var mark := "```\n";
    assert LineEnd(mark) == 4 by {
      assert mark[1..] == "``\n" && "``\n"[1..] == "`\n" && "`\n"[1..] == "\n";
    }
    assert mark[..4] == mark && mark[4..] == "";
    assert WithoutLineBreak(mark) == "```" by { assert mark[..3] == "```"; }
  }

  /** The parts compose, whatever follows, exactly when the tracking did not stop inside the first part at
      a lone carriage return; when it did, one of two texts is tracked to the wrong state. */
  lemma CompositionFailsExactlyAtALoneReturn(inside: bool, a: string)
    ensures var (fence, linePrefix) := Advance(inside, a);
            StopsAtReturn(a) <==> exists b: string :: Advance(fence, linePrefix + b).0 != Advance(inside, a + b).0
  {
    var (fence, linePrefix) := Advance(inside, a);
    if StopsAtReturn(a) {
      var (b, c) := ("\n", "\n```\n");
      StoppedTrackingStays(inside, a, b);
      StoppedTrackingStays(inside, a, c);
      hide Advance, StopsAtReturn;
      LineFeedGoesOn(fence, linePrefix);
      assert Advance(fence, linePrefix + b).0 != Advance(inside, a + b).0
             || Advance(fence, linePrefix + c).0 != Advance(inside, a + c).0;
    } else {
      hide Advance, StopsAtReturn;
      forall b: string ensures Advance(fence, linePrefix + b).0 == Advance(inside, a + b).0 {
        TrackingComposes(inside, a, b);
      }
    }
  }

  lemma {:induction false} PrefixesStopEarlier(a: string, b: string)
    requires !StopsAtReturn(a + b)
    ensures !StopsAtReturn(a)
  {
    if StopsAtReturn(a) {
      StoppedTrackingStays(false, a, b);
    }
  }

  // ---------------------------------------------------------------- what the tracking means

  predicate PlainBreak(c: char) {
    LineBreak(c) ==> c == '\n' || c == '\r'
  }

  /** Every carriage return that is not the last character stands before a line feed. */
  predicate NoLoneReturn(text: string) {
    forall i :: 0 <= i < |text| - 1 && text[i] == '\r' ==> text[i + 1] == '\n'
  }

  /** Lines end only in LF or CRLF. */
  predicate PlainBreaks(text: string) {
    NoLoneReturn(text) && forall i :: 0 <= i < |text| ==> PlainBreak(text[i])
  }

  predicate LineStart(text: string, p: nat)
    requires p <= |text|
  {
    p == 0 || text[p - 1] == '\n'
  }

  /** A complete line that starts at `p` opens or closes a fence. */
  predicate FenceMark(text: string, p: nat)
    requires p <= |text|
  {
    LineStart(text, p) && FENCE <= WithoutBlanks(text[p..]) && '\n' in text[p..]
  }

  function FenceMarks(text: string, from: nat): nat
    requires from <= |text|
    decreases |text| - from
  {
    if from == |text| then 0 else (if FenceMark(text, from) then 1 else 0) + FenceMarks(text, from + 1)
  }

  /** A fence is open after a text whose complete lines hold an odd number of fence marks. */
  predicate FenceOpen(text: string) {
    FenceMarks(text, 0) % 2 == 1
  }

  lemma {:induction false} LineBreakEndsTheMark(line: string, rest: string)
    requires rest != "" && rest[0] in {'\r', '\n'}
    ensures FENCE <= WithoutBlanks(line + rest) <==> FENCE <= WithoutBlanks(line)
    decreases |line|
  {
    if line == "" {
      assert line + rest == rest;
    } else if line[0] in {' ', '\t'} {
      assert (line + rest)[1..] == line[1..] + rest;
      LineBreakEndsTheMark(line[1..], rest);
    } else {
      var text := line + rest;
      assert WithoutBlanks(text) == text && WithoutBlanks(line) == line;
      assert |line| < 3 ==> text[|line|] == rest[0];
    }
  }

  lemma BodyOfALine(text: string, n: nat, k: nat)
    requires text != "" && n == LineEnd(text) && text[n - 1] == '\n'
    requires k == (if n >= 2 && text[n - 2] == '\r' then n - 2 else n - 1)
    ensures WithoutLineBreak(text[..n]) == text[..k]
  {
    var line, body := text[..n], text[..k];
    assert line[n - 1] == '\n' && line[..n - 1] == text[..n - 1];
    assert k + 2 == n ==> text[..n - 1][n - 2] == '\r' && text[..n - 1][..n - 2] == body;
    assert k > 0 ==> !LineBreak(text[k - 1]);
    assert k > 0 ==> body[k - 1] == text[k - 1] && body[k - 1] != '\r' && body[k - 1] != '\n';
    assert WithoutLineBreak(body) == body;
    assert WithoutLineBreak(line) == WithoutLineBreak(text[..n - 1]);
    assert k + 2 == n ==> WithoutLineBreak(text[..n - 1]) == WithoutLineBreak(body);
  }

  lemma FenceLineIsAMark(text: string, n: nat)
    requires text != "" && n == LineEnd(text) && text[n - 1] == '\n'
    ensures FenceMark(text, 0) <==> FenceLine(text[..n])
  {
    var k := if n >= 2 && text[n - 2] == '\r' then n - 2 else n - 1;
    BodyOfALine(text, n, k);
    assert text[0..] == text && '\n' in text;
    assert text == text[..k] + text[k..];
    LineBreakEndsTheMark(text[..k], text[k..]);
    hide WithoutLineBreak, WithoutBlanks, LineEnd;
  }

  lemma {:induction false} MarksAfterALine(text: string, n: nat, from: nat)
    requires n <= |text| && LineStart(text, n) && from <= |text| - n
    ensures FenceMarks(text, n + from) == FenceMarks(text[n..], from)
    decreases |text| - from
  {
    if from < |text| - n {
      MarksAfterALine(text, n, from + 1);
      assert text[n..][from..] == text[n + from..];
    }
  }

  lemma {:induction false} NoMarksBetween(text: string, from: nat, end: nat)
    requires from <= end <= |text|
    requires forall p :: from <= p < end ==> !FenceMark(text, p)
    ensures FenceMarks(text, from) == FenceMarks(text, end)
    decreases end - from
  {
    if from < end {
      NoMarksBetween(text, from + 1, end);
    }
  }

  lemma FirstLineMarks(text: string, n: nat)
    requires text != "" && PlainBreaks(text) && n == LineEnd(text) && text[n - 1] == '\n'
    ensures FenceMarks(text, 0) == (if FenceLine(text[..n]) then 1 else 0) + FenceMarks(text[n..], 0)
  {
    FenceLineIsAMark(text, n);
    assert forall p: nat :: 1 <= p < n ==> !LineStart(text, p);
    hide FenceLine;
    NoMarksBetween(text, 1, n);
    MarksAfterALine(text, n, 0);
  }

  lemma NoLineNoMarks(text: string)
    requires PlainBreaks(text) && text != "" && text[LineEnd(text) - 1] != '\n'
    ensures FenceMarks(text, 0) == 0
  {
    var n := LineEnd(text);
    assert n == |text|;
    forall i | 0 <= i < n ensures text[i] != '\n' {
      if i + 2 < n {
        assert !LineBreak(text[i]);
      } else if i + 2 == n {
        assert !LineBreak(text[i]);
      }
    }
    hide LineEnd;
    NoMarksBetween(text, 0, |text|);
  }

  /** On plain line breaks the tracked state is whether a fence is open. */
  lemma {:induction false} TrackingFindsTheFence(inside: bool, text: string)
    requires PlainBreaks(text)
    ensures Advance(inside, text).0 == (inside != FenceOpen(text))
    decreases |text|
  {
    hide FenceLine, FenceMarks, LineEnd;
    if text == "" {
      NothingMarksNothing();
    } else {
      var n := LineEnd(text);
      if text[n - 1] == '\n' {
        FirstLineMarks(text, n);
        TrackingFindsTheFence(inside != FenceLine(text[..n]), text[n..]);
      } else {
        NoLineNoMarks(text);
      }
    }
  }

  lemma NothingMarksNothing()
    ensures FenceMarks("", 0) == 0
  {
  }

  // ---------------------------------------------------------------- where the tracking goes wrong

  /** A line break at `i` is a line feed, or a carriage return with a line feed after it. */
  predicate WholeBreakAt(text: string, i: nat)
    requires i < |text|
  {
    LineBreak(text[i]) ==> text[i] == '\n' || (text[i] == '\r' && i + 1 < |text| && text[i + 1] == '\n')
  }

  predicate WholeBreaks(text: string) {
    forall i :: 0 <= i < |text| ==> WholeBreakAt(text, i)
  }

  lemma LaterLinesBreakOtherwise(text: string, n: nat)
    requires text != "" && n == LineEnd(text) && text[n - 1] == '\n' && !WholeBreaks(text)
    ensures !WholeBreaks(text[n..])
  {
    var i :| 0 <= i < |text| && !WholeBreakAt(text, i);
    assert i >= n && !WholeBreakAt(text[n..], i - n);
  }

  lemma WholeThenPlain(text: string, more: string)
    requires WholeBreaks(text) && PlainBreaks(more)
    ensures PlainBreaks(text + more)
  {
    var whole := text + more;
    forall i | 0 <= i < |whole| ensures PlainBreak(whole[i]) && (i < |whole| - 1 && whole[i] == '\r' ==> whole[i + 1] == '\n') {
      if i < |text| {
        assert WholeBreakAt(text, i);
      } else {
        assert PlainBreak(more[i - |text|]) && (i < |whole| - 1 ==> whole[i + 1] == more[i - |text| + 1]);
      }
    }
  }

  /** Any other line break stops the tracking for good, unless a line feed follows that makes it whole. */
  lemma {:induction false} OtherBreaksStopTheTracking(inside: bool, text: string, more: string)
    requires !WholeBreaks(text) && (more == "" || more[0] != '\n' || !WholeBreaks(text + "\n"))
    ensures Advance(inside, text + more).0 == Advance(inside, text).0
    decreases |text|
  {
    hide WholeBreaks, FenceLine, Advance, LineEnd;
    if more == "" {
      assert text + more == text;
    } else {
      NothingIsWhole(text);
      var n := LineEnd(text);
      if text[n - 1] == '\n' {
        LaterLinesBreakOtherwise(text, n);
        AdvanceReadsALine(inside, text);
        FirstLineRead(inside, text, more);
        if more[0] == '\n' {
          LaterLinesBreakEvenThen(text, n);
        }
        OtherBreaksStopTheTracking(inside != FenceLine(text[..n]), text[n..], more);
      } else {
        StoppedLine(text, n);
        StopsBefore(text, more);
        AdvanceReadsALine(inside, text);
        AdvanceReadsALine(inside, text + more);
      }
    }
  }

  lemma NothingIsWhole(text: string)
    requires !WholeBreaks(text)
    ensures text != ""
  {
  }

  lemma LaterLinesBreakEvenThen(text: string, n: nat)
    requires text != "" && n == LineEnd(text) && text[n - 1] == '\n' && !WholeBreaks(text + "\n")
    ensures !WholeBreaks(text[n..] + "\n")
  {
    hide WholeBreaks;
    LineEndOfLongerText(text, "\n");
    assert (text + "\n")[n..] == text[n..] + "\n";
    LaterLinesBreakOtherwise(text + "\n", n);
  }

  /** The line the tracking stops at ends there in a longer text too. */
  lemma StopsBefore(text: string, more: string)
    requires text != "" && more != "" && LineBreak(text[LineEnd(text) - 1]) && text[LineEnd(text) - 1] != '\n'
    requires more[0] != '\n' || !WholeBreaks(text + "\n")
    ensures LineEnd(text + more) == LineEnd(text)
  {
    hide WholeBreaks;
    if text[LineEnd(text) - 1] == '\r' && LineEnd(text) == |text| {
      if more[0] == '\n' {
        ReturnAlone(text);
      }
      StoppedLineEnd(text, more);
    } else {
      LineEndOfLongerText(text, more);
    }
  }

  lemma StoppedLine(text: string, n: nat)
    requires text != "" && n == LineEnd(text) && text[n - 1] != '\n' && !WholeBreaks(text)
    ensures LineBreak(text[n - 1])
  {
    if n == |text| {
      var i :| 0 <= i < |text| && !WholeBreakAt(text, i);
      assert i == n - 1;
    }
  }

  lemma NoBreaksBefore(text: string)
    requires text != "" && LineEnd(text) == |text| && text[|text| - 1] == '\r'
    ensures forall i :: 0 <= i < |text| - 1 ==> !LineBreak(text[i])
  {
    hide LineBreak;
  }

  /** A line that ends in a carriage return becomes whole with a line feed. */
  lemma ReturnAlone(text: string)
    requires text != "" && LineEnd(text) == |text| && text[|text| - 1] == '\r'
    ensures WholeBreaks(text + "\n")
  {
    NoBreaksBefore(text);
    hide LineEnd, LineBreak;
  }

  lemma {:induction false} StoppedLineEnd(text: string, more: string)
    requires text != "" && more != "" && more[0] != '\n'
    requires text[LineEnd(text) - 1] != '\n' && LineBreak(text[LineEnd(text) - 1])
    ensures LineEnd(text + more) == LineEnd(text)
    decreases |text|
  {
    if !LineBreak(text[0]) && |text| > 1 {
      assert (text + more)[1..] == text[1..] + more;
      StoppedLineEnd(text[1..], more);
    }
  }

  lemma {:induction false} MarkOfLongerText(line: string, more: string)
    requires line != "" && line[|line| - 1] == '\n'
    ensures FENCE <= WithoutBlanks(line + more) <==> FENCE <= WithoutBlanks(line)
    decreases |line|
  {
    if line[0] in {' ', '\t'} {
      assert (line + more)[1..] == line[1..] + more;
      MarkOfLongerText(line[1..], more);
    } else {
      assert WithoutBlanks(line + more) == line + more && WithoutBlanks(line) == line;
      assert (line + more)[|line| - 1] == '\n';
    }
  }

  /** After a line end, marks add up. */
  lemma {:induction false} MarksAddUp(text: string, more: string, from: nat)
    requires from <= |text| && text != "" && text[|text| - 1] == '\n'
    ensures FenceMarks(text + more, from) == FenceMarks(text, from) + FenceMarks(more, 0)
    decreases |text| - from
  {
    var whole := text + more;
    if from == |text| {
      MarksAfterALine(whole, from, 0);
      assert whole[from..] == more;
    } else {
      MarksAddUp(text, more, from + 1);
      assert whole[from..] == text[from..] + more;
      MarkOfLongerText(text[from..], more);
      assert text[from..][|text| - 1 - from] == '\n';
      hide WithoutBlanks;
    }
  }

  lemma OneMark()
    ensures FenceMarks("```\n", 0) == 1
  {
    var mark := "```\n";
    assert mark[0..] == mark && WithoutBlanks(mark) == mark;
    NoMarksBetween(mark, 1, |mark|);
  }

  /** Of two plain texts one leaves a fence open and one does not. */
  lemma TextsTurnTheFence(text: string) returns (texts: (string, string))
    ensures texts == ("x\n", "x\n```\n") && PlainBreaks(texts.0) && PlainBreaks(texts.1)
    ensures FenceOpen(text + texts.0) == !FenceOpen(text + texts.1)
  {
    texts := ("x\n", "x\n```\n");
    var line, mark := text + "x\n", "```\n";
    assert text + "x\n```\n" == line + mark;
    MarksAddUp(line, mark, 0);
    OneMark();
    hide FenceMarks;
  }

  lemma ATextLeavesNoFence(text: string) returns (more: string)
    ensures (more == "x\n" || more == "x\n```\n") && PlainBreaks(more) && !FenceOpen(text + more)
  {
    var texts := TextsTurnTheFence(text);
    hide FenceOpen, PlainBreaks;
    more := if FenceOpen(text + texts.0) then texts.1 else texts.0;
  }

  /** The tracked state tells the fence under every plain continuation exactly when the text so far has
      no line break but line feeds and whole CRLFs. */
  lemma TrackingIsTrueExactlyOnWholeBreaks(text: string)
    ensures WholeBreaks(text) <==>
            forall more: string :: PlainBreaks(more) ==> Advance(false, text + more).0 == FenceOpen(text + more)
  {
    if WholeBreaks(text) {
      forall more: string | PlainBreaks(more) ensures Advance(false, text + more).0 == FenceOpen(text + more) {
        WholeThenPlain(text, more);
        hide PlainBreaks, Advance, FenceOpen;
        TrackingFindsTheFence(false, text + more);
      }
    } else {
      hide PlainBreaks, WholeBreaks, Advance, FenceMarks;
      var texts := TextsTurnTheFence(text);
      var (a, b) := texts;
      OtherBreaksStopTheTracking(false, text, a);
      OtherBreaksStopTheTracking(false, text, b);
    }
  }

  lemma PlainAfterItsFirst(text: string)
    requires PlainBreaks(text) && text != ""
    ensures PlainBreaks(text[1..])
  {
    forall i | 0 <= i < |text| - 1
      ensures PlainBreak(text[1..][i]) && (i < |text| - 2 && text[1..][i] == '\r' ==> text[1..][i + 1] == '\n')
    {
      assert PlainBreak(text[i + 1]);
    }
  }

  /** Where the tracking is true, or stopped outside a fence, a plain text keeps it so. */
  lemma SoundTrackingStays(text: string, plain: string)
    requires (WholeBreaks(text) || !Advance(false, text).0) && PlainBreaks(plain)
    ensures PlainBreaks(text + plain) || !Advance(false, text + plain).0
  {
    if WholeBreaks(text) {
      WholeThenPlain(text, plain);
    } else if plain != "" && plain[0] == '\n' && WholeBreaks(text + "\n") {
      PlainAfterItsFirst(plain);
      WholeThenPlain(text + "\n", plain[1..]);
      assert text + "\n" + plain[1..] == text + plain;
    } else {
      OtherBreaksStopTheTracking(false, text, plain);
    }
    hide PlainBreaks, WholeBreaks, Advance;
  }
}
