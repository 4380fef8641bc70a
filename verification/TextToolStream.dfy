/** The streaming recogniser of a text tool call (src/agent_runtime/text_tool_protocol.py:141-285): text
    goes on to the user unless it may still become the opening line of a call. */
module TextToolStream {
  import opened Wire
  import opened MarkdownFences

  predicate Space(c: char) {
    '\t' <= c <= '\r' || '\U{001C}' <= c <= ' ' || '\U{2000}' <= c <= '\U{200A}'
    || c in {'\U{0085}', '\U{00A0}', '\U{1680}', '\U{2028}', '\U{2029}', '\U{202F}', '\U{205F}', '\U{3000}'}
  }

  predicate IsSpace(text: string) {
    text != "" && forall i :: 0 <= i < |text| ==> Space(text[i])
  }

  function OpenTag(ns: string): string {
    "<" + ns + "_tool_call>"
  }

  function OpeningLf(ns: string): string {
    OpenTag(ns) + "\n"
  }

  function OpeningCrlf(ns: string): string {
    OpenTag(ns) + "\r\n"
  }

  predicate HasOpeningLine(ns: string, value: string) {
    OpeningLf(ns) <= value || OpeningCrlf(ns) <= value
  }

  predicate OpeningLinePrefix(ns: string, value: string) {
    value <= OpeningLf(ns) || value <= OpeningCrlf(ns)
  }

  /** The stream so far; a call buffer exists once a call was recognised. */
  datatype Parser = Parser(candidate: string, callBuffer: Option<string>, insideFence: bool, linePrefix: string)

  const NEW_PARSER := Parser("", None, false, "")

  predicate Occurs(value: string, part: string, p: nat) {
    p + |part| <= |value| && value[p..p + |part|] == part
  }

  /** `str.find`: the first occurrence at or after `start`, or -1. */
  function Find(value: string, part: string, start: nat): (p: int)
    ensures p == -1 || (p >= start && Occurs(value, part, p))
    ensures forall q: nat :: start <= q && (p == -1 || q < p) ==> !Occurs(value, part, q)
    decreases |value| - start
  {
    if start + |part| > |value| then -1
    else if Occurs(value, part, start) then start
    else Find(value, part, start + 1)
  }

  /** The occurrences the search meets: after one it goes on behind its end. */
  function Occurrences(value: string, part: string, start: nat): (found: set<nat>)
    requires part != ""
    ensures forall p :: p in found ==> start <= p < |value| && Occurs(value, part, p)
    decreases |value| - start
  {
    var p := Find(value, part, start);
    if p < 0 then {} else {p as nat} + Occurrences(value, part, p + |part|)
  }

  predicate SearchFinds(ns: string, value: string, p: nat) {
    p in Occurrences(value, OpeningLf(ns), 0) || p in Occurrences(value, OpeningCrlf(ns), 0)
  }

  /** The search finds a complete opening line at a line start of the candidate, outside a fence. */
  predicate OpensAt(ns: string, s: Parser, value: string, p: nat) {
    p < |value| && LineStart(value, p) && SearchFinds(ns, value, p)
    && !Advance(s.insideFence, s.linePrefix + value[..p]).0
  }

  /** The rest of the candidate from `p` on may become an opening line, outside a fence. */
  predicate MayOpenAt(ns: string, s: Parser, value: string, p: nat) {
    p < |value| && LineStart(value, p) && OpeningLinePrefix(ns, value[p..])
    && !Advance(s.insideFence, s.linePrefix + value[..p]).0
  }

  function OpeningLineStart(ns: string, s: Parser, value: string, from: nat): (p: Option<nat>)
    ensures p.Some? ==> from <= p.value && OpensAt(ns, s, value, p.value)
    ensures p.Some? ==> forall q: nat :: from <= q < p.value ==> !OpensAt(ns, s, value, q)
    ensures p.None? ==> forall q: nat :: from <= q ==> !OpensAt(ns, s, value, q)
    decreases |value| - from
  {
    if from >= |value| then None
    else if OpensAt(ns, s, value, from) then Some(from)
    else OpeningLineStart(ns, s, value, from + 1)
  }

  function OpeningLinePrefixStart(ns: string, s: Parser, value: string, from: nat): (p: Option<nat>)
    ensures p.Some? ==> from <= p.value && MayOpenAt(ns, s, value, p.value)
    ensures p.Some? ==> forall q: nat :: from <= q < p.value ==> !MayOpenAt(ns, s, value, q)
    ensures p.None? ==> forall q: nat :: from <= q ==> !MayOpenAt(ns, s, value, q)
    decreases |value| - from
  {
    if from >= |value| then None
    else if MayOpenAt(ns, s, value, from) then Some(from)
    else OpeningLinePrefixStart(ns, s, value, from + 1)
  }

  function Recorded(s: Parser, text: string): Parser {
    var (fence, linePrefix) := Advance(s.insideFence, s.linePrefix + text);
    s.(insideFence := fence, linePrefix := linePrefix)
  }

  /** One piece of provider text: the new state and the text that may go on to the user. */
  function Fed(ns: string, s: Parser, text: string): (Parser, string) {
    if s.callBuffer.Some? then (s.(callBuffer := Some(s.callBuffer.value + text)), "")
    else
      var value := s.candidate + text;
      var opening := OpeningLineStart(ns, s, value, 0);
      if opening.Some? then Recognised(s, value, opening.value)
      else
        var possible := OpeningLinePrefixStart(ns, s, value, 0);
        Released(s, value, if possible.Some? then possible.value else |value|)
  }

  /** The text before a call goes on, unless it is white space alone, which stays with the call. */
  function Recognised(s: Parser, value: string, p: nat): (Parser, string)
    requires p <= |value|
  {
    var emitted := value[..p];
    var t := Recorded(s, emitted).(candidate := "");
    if IsSpace(emitted) then (t.(callBuffer := Some(value)), "")
    else (t.(callBuffer := Some(value[p..])), emitted)
  }

  /** The text before `held` goes on, unless it is white space alone, which is held back too. */
  function Released(s: Parser, value: string, held: nat): (Parser, string)
    requires held <= |value|
  {
    var emitted := value[..held];
    if IsSpace(emitted) then (s.(candidate := value), "")
    else (Recorded(s, emitted).(candidate := value[held..]), emitted)
  }

  function FedAll(ns: string, pieces: seq<string>): (Parser, string) {
    if pieces == [] then (NEW_PARSER, "")
    else
      var (s, returned) := FedAll(ns, pieces[..|pieces| - 1]);
      var (t, more) := Fed(ns, s, pieces[|pieces| - 1]);
      (t, returned + more)
  }

  function Joined(pieces: seq<string>): string {
    if pieces == [] then "" else Joined(pieces[..|pieces| - 1]) + pieces[|pieces| - 1]
  }

  function Held(s: Parser): string {
    if s.callBuffer.Some? then s.callBuffer.value else s.candidate
  }

  // ---------------------------------------------------------------- nothing is lost

  lemma FeedingLosesNothing(ns: string, s: Parser, text: string)
    requires s.callBuffer.Some? ==> s.candidate == ""
    ensures var (t, more) := Fed(ns, s, text);
            more + Held(t) == Held(s) + text && (t.callBuffer.Some? ==> t.candidate == "")
  {
    hide OpeningLineStart, OpeningLinePrefixStart, Advance;
    assert forall v: string, p: nat :: p <= |v| ==> v[..p] + v[p..] == v;
  }

  lemma Regroup(a: string, b: string, c: string, d: string, e: string)
    requires b + c == d + e
    ensures (a + b) + c == (a + d) + e
  {
    assert (a + b) + c == a + (b + c) == a + (d + e) == (a + d) + e;
  }

  lemma Associates(a: string, b: string, c: string)
    ensures (a + b) + c == a + (b + c)
  {
  }

  /** Whatever the pieces, the text returned and the text held back are the text fed. */
  lemma {:induction false} NothingIsLost(ns: string, pieces: seq<string>)
    ensures var (s, returned) := FedAll(ns, pieces);
            returned + Held(s) == Joined(pieces) && (s.callBuffer.Some? ==> s.candidate == "")
  {
    if pieces != [] {
      var before, text := pieces[..|pieces| - 1], pieces[|pieces| - 1];
      NothingIsLost(ns, before);
      var (s, returned) := FedAll(ns, before);
      FeedingLosesNothing(ns, s, text);
      hide Fed, Held;
      var (t, more) := Fed(ns, s, text);
      Regroup(returned, more, Held(t), Held(s), text);
    }
  }

  // ---------------------------------------------------------------- which opening lines the search finds

  /** No copy of `part` overlaps another one that starts a line. */
  predicate LinesApart(part: string) {
    forall d :: 0 < d < |part| && part[d - 1] == '\n' ==> !(part[d..] <= part)
  }

  predicate PlainNamespace(ns: string) {
    LinesApart(OpeningLf(ns)) && LinesApart(OpeningCrlf(ns))
  }

  lemma OneLineIsApart(ns: string)
    requires '\n' !in ns
    ensures PlainNamespace(ns)
  {
    var lf, crlf := OpeningLf(ns), OpeningCrlf(ns);
    assert forall i :: 0 <= i < |lf| - 1 ==> lf[i] != '\n';
    assert forall i :: 0 <= i < |crlf| - 1 ==> crlf[i] != '\n';
  }

  lemma OverlapsAtLineStarts(value: string, part: string, p: nat, q: nat)
    requires Occurs(value, part, p) && Occurs(value, part, q) && p < q < p + |part| && LineStart(value, q)
    ensures !LinesApart(part)
  {
    var d := q - p;
    assert part[d - 1] == value[p..p + |part|][d - 1] == value[q - 1];
    assert part[d..] == value[p..p + |part|][d..] == value[q..p + |part|];
    assert value[q..q + |part|][..|part| - d] == value[q..p + |part|];
  }

  lemma TheSearchGoesOn(value: string, part: string, start: nat)
    requires part != ""
    ensures var p := Find(value, part, start);
            Occurrences(value, part, start) == if p < 0 then {} else {p as nat} + Occurrences(value, part, p + |part|)
  {
    hide Find;
  }

  lemma {:induction false} LineStartsAreFound(value: string, part: string, start: nat, q: nat)
    requires part != "" && LinesApart(part) && start <= q && Occurs(value, part, q) && LineStart(value, q)
    ensures q in Occurrences(value, part, start)
    decreases |value| - start
  {
    hide Occurrences, Find, LinesApart, LineStart, Occurs;
    var p := Find(value, part, start);
    TheSearchGoesOn(value, part, start);
    assert 0 <= p <= q;
    if p < q {
      if q < p + |part| {
        OverlapsAtLineStarts(value, part, p, q);
      } else {
        LineStartsAreFound(value, part, p + |part|, q);
      }
    }
  }

  /** The search finds every copy that starts a line, in every text, exactly when no copy overlaps
      another one that starts a line. */
  lemma TheSearchMissesOverlapsOnly(part: string)
    requires part != ""
    ensures LinesApart(part) <==>
            forall value: string, p: nat :: Occurs(value, part, p) && LineStart(value, p) ==> p in Occurrences(value, part, 0)
  {
    hide Occurrences;
    if LinesApart(part) {
      forall value: string, p: nat | Occurs(value, part, p) && LineStart(value, p) ensures p in Occurrences(value, part, 0) {
        LineStartsAreFound(value, part, 0, p);
      }
    } else {
      var d :| 0 < d < |part| && part[d - 1] == '\n' && part[d..] <= part;
      AnOverlapIsMissed(part, d);
    }
  }

  lemma AnOverlapIsMissed(part: string, d: nat)
    requires 0 < d < |part| && part[d - 1] == '\n' && part[d..] <= part
    ensures var value := part[..d] + part;
            Occurs(value, part, d) && LineStart(value, d) && d !in Occurrences(value, part, 0)
  {
    var value := part[..d] + part;
    assert value[..|part|] == part by {
      assert forall i :: 0 <= i < |part| - d ==> part[i] == part[d..][i];
    }
    assert Occurs(value, part, 0) && Find(value, part, 0) == 0;
    assert value[d..d + |part|] == part;
    assert Occurrences(value, part, 0) == {0} + Occurrences(value, part, |part|);
  }

  lemma OccursIsPrefix(value: string, part: string, p: nat)
    requires part != ""
    ensures Occurs(value, part, p) <==> p < |value| && part <= value[p..]
  {
    if p < |value| && part <= value[p..] {
      assert value[p..][..|part|] == value[p..p + |part|];
    }
    if Occurs(value, part, p) {
      assert value[p..][..|part|] == value[p..p + |part|];
    }
  }

  lemma FoundIsAnOpeningLine(ns: string, value: string, p: nat)
    requires SearchFinds(ns, value, p)
    ensures p < |value| && HasOpeningLine(ns, value[p..])
  {
    OccursIsPrefix(value, OpeningLf(ns), p);
    OccursIsPrefix(value, OpeningCrlf(ns), p);
  }

  lemma OpeningLinesAreFound(ns: string, value: string, p: nat)
    requires PlainNamespace(ns) && p < |value| && LineStart(value, p) && HasOpeningLine(ns, value[p..])
    ensures SearchFinds(ns, value, p)
  {
    OccursIsPrefix(value, OpeningLf(ns), p);
    OccursIsPrefix(value, OpeningCrlf(ns), p);
    if OpeningLf(ns) <= value[p..] {
      LineStartsAreFound(value, OpeningLf(ns), 0, p);
    } else {
      LineStartsAreFound(value, OpeningCrlf(ns), 0, p);
    }
  }

  // ---------------------------------------------------------------- no call is shown to the user

  /** In a whole text, an opening line at a true line start outside a fence, complete or just begun. */
  predicate OpensIn(ns: string, text: string, p: nat) {
    p < |text| && LineStart(text, p) && HasOpeningLine(ns, text[p..]) && !Advance(false, text[..p]).0
  }

  predicate MayOpenIn(ns: string, text: string, p: nat) {
    p < |text| && LineStart(text, p) && OpeningLinePrefix(ns, text[p..]) && !Advance(false, text[..p]).0
  }

  predicate Tracked(s: Parser, shown: string) {
    Advance(false, shown) == (s.insideFence, s.linePrefix)
  }

  /** Nothing shown opens a call, and while none was recognised, nothing fed so far does, and what was shown
      never will, whatever follows. */
  ghost predicate Safe(ns: string, s: Parser, shown: string) {
    && (s.callBuffer.Some? ==> forall p: nat :: !OpensIn(ns, shown, p))
    && (s.callBuffer.None? ==>
         && Tracked(s, shown) && !HasOpeningLine(ns, s.candidate)
         && (forall p: nat :: !OpensIn(ns, shown + s.candidate, p))
         && (forall p: nat :: p < |shown| ==> !MayOpenIn(ns, shown + s.candidate, p)))
  }

  /** Position `q` of `value` is position `|text| + q` of the text with `value` after it. */
  lemma PositionsShift(text: string, value: string, q: nat)
    requires q <= |value|
    ensures var whole := text + value;
            && whole[..|text| + q] == text + value[..q]
            && whole[|text| + q..] == value[q..]
            && (LineStart(whole, |text| + q) ==> LineStart(value, q))
            && (LineStart(value, q) && (q > 0 || LineStart(text, |text|)) ==> LineStart(whole, |text| + q))
  {
  }

  lemma ReadsOn(s: Parser, shown: string, more: string)
    requires Tracked(s, shown) && !StopsAtReturn(shown)
    ensures Advance(s.insideFence, s.linePrefix + more) == Advance(false, shown + more)
  {
    TrackingComposes(false, shown, more);
    hide Advance;
  }

  /** Text that is not yet part of an opening line does not become part of one later. */
  lemma OpeningsDoNotReachBack(ns: string, text: string, more: string, p: nat)
    requires p < |text| && !OpensIn(ns, text, p) && !MayOpenIn(ns, text, p)
    ensures !OpensIn(ns, text + more, p) && !MayOpenIn(ns, text + more, p)
  {
    var whole := text + more;
    assert whole[..p] == text[..p] && whole[p..] == text[p..] + more;
    hide Advance;
    if HasOpeningLine(ns, whole[p..]) {
      assert HasOpeningLine(ns, text[p..]) || OpeningLinePrefix(ns, text[p..]);
    }
  }

  lemma OpeningsStay(ns: string, text: string, more: string, p: nat)
    requires OpensIn(ns, text, p)
    ensures OpensIn(ns, text + more, p)
  {
    assert (text + more)[..p] == text[..p] && (text + more)[p..] == text[p..] + more;
    hide Advance;
  }

  /** What opens in the text that was not shown is what the search finds, except at its very start. */
  lemma OpeningsAfterShownText(ns: string, s: Parser, shown: string, value: string, q: nat)
    requires Tracked(s, shown) && !StopsAtReturn(shown) && PlainNamespace(ns) && q < |value|
    ensures OpensIn(ns, shown + value, |shown| + q) ==> OpensAt(ns, s, value, q)
    ensures OpensAt(ns, s, value, q) && (q > 0 || LineStart(shown, |shown|)) ==> OpensIn(ns, shown + value, |shown| + q)
    ensures MayOpenIn(ns, shown + value, |shown| + q) ==> MayOpenAt(ns, s, value, q)
  {
    ReadsOn(s, shown, value[..q]);
    PositionsShift(shown, value, q);
    if SearchFinds(ns, value, q) {
      FoundIsAnOpeningLine(ns, value, q);
    }
    hide Advance, Tracked, HasOpeningLine, OpeningLinePrefix, SearchFinds, PlainNamespace, LineStart;
    if OpensIn(ns, shown + value, |shown| + q) {
      OpeningLinesAreFound(ns, value, q);
    }
  }

  /** Where a text opens no call, a first part of it opens none. */
  lemma ShownPartsOpenNoMore(ns: string, shown: string, value: string, k: nat, p: nat)
    requires k <= |value| && !OpensIn(ns, shown + value, p)
    ensures !OpensIn(ns, shown + value[..k], p)
  {
    assert value == value[..k] + value[k..];
    Associates(shown, value[..k], value[k..]);
    hide OpensIn;
    if OpensIn(ns, shown + value[..k], p) {
      OpeningsStay(ns, shown + value[..k], value[k..], p);
    }
  }

  /** As long as the search finds nothing in what is held, nothing fed so far opens a call. */
  lemma NothingOpens(ns: string, s: Parser, shown: string, text: string)
    requires PlainNamespace(ns) && Safe(ns, s, shown) && s.callBuffer.None? && !StopsAtReturn(shown)
    requires forall q: nat :: !OpensAt(ns, s, s.candidate + text, q)
    ensures forall p: nat :: !OpensIn(ns, shown + (s.candidate + text), p)
  {
    var value := s.candidate + text;
    Associates(shown, s.candidate, text);
    hide OpensIn, MayOpenIn, OpensAt, PlainNamespace, StopsAtReturn, Tracked, HasOpeningLine;
    forall p: nat ensures !OpensIn(ns, shown + value, p) {
      if p < |shown| {
        OpeningsDoNotReachBack(ns, shown + s.candidate, text, p);
      } else if p < |shown + value| {
        OpeningsAfterShownText(ns, s, shown, value, p - |shown|);
      } else {
        NothingOpensPastTheEnd(ns, shown + value, p);
      }
    }
  }

  lemma NothingOpensPastTheEnd(ns: string, text: string, p: nat)
    requires p >= |text|
    ensures !OpensIn(ns, text, p) && !MayOpenIn(ns, text, p)
  {
  }

  /** What goes on to the user before `k` never becomes an opening line. */
  lemma NothingShownMayOpen(ns: string, s: Parser, shown: string, text: string, k: nat)
    requires PlainNamespace(ns) && Safe(ns, s, shown) && s.callBuffer.None? && !StopsAtReturn(shown)
    requires k <= |s.candidate + text| && forall q: nat :: q < k ==> !MayOpenAt(ns, s, s.candidate + text, q)
    ensures forall p: nat :: p < |shown| + k ==> !MayOpenIn(ns, shown + (s.candidate + text), p)
  {
    var value := s.candidate + text;
    Associates(shown, s.candidate, text);
    hide OpensIn, MayOpenIn, MayOpenAt, PlainNamespace, StopsAtReturn, Tracked, HasOpeningLine;
    forall p: nat | p < |shown| + k ensures !MayOpenIn(ns, shown + value, p) {
      if p < |shown| {
        OpeningsDoNotReachBack(ns, shown + s.candidate, text, p);
      } else {
        OpeningsAfterShownText(ns, s, shown, value, p - |shown|);
      }
    }
  }

  lemma RecordingTracks(s: Parser, shown: string, emitted: string)
    requires Tracked(s, shown) && !StopsAtReturn(shown)
    ensures Tracked(Recorded(s, emitted), shown + emitted)
  {
    ReadsOn(s, shown, emitted);
    hide Advance;
  }

  /** Nothing that opens before `k` was found, so the text up to there opens nothing. */
  lemma NothingOpensBefore(ns: string, s: Parser, shown: string, value: string, k: nat)
    requires PlainNamespace(ns) && Tracked(s, shown) && !StopsAtReturn(shown) && k <= |value|
    requires forall p: nat :: p < |shown| ==> !OpensIn(ns, shown + value, p)
    requires forall q: nat :: q < k ==> !OpensAt(ns, s, value, q)
    ensures forall p: nat :: !OpensIn(ns, shown + value[..k], p)
  {
    hide OpensIn, OpensAt, Advance, Tracked, StopsAtReturn, PlainNamespace, HasOpeningLine;
    forall p: nat ensures !OpensIn(ns, shown + value[..k], p) {
      if p >= |shown| + k {
        NothingOpensPastTheEnd(ns, shown + value[..k], p);
      } else {
        if p >= |shown| {
          OpeningsAfterShownText(ns, s, shown, value, p - |shown|);
        }
        ShownPartsOpenNoMore(ns, shown, value, k, p);
      }
    }
  }

  lemma RecognisingShows(s: Parser, value: string, q: nat)
    requires q <= |value|
    ensures var (t, more) := Recognised(s, value, q);
            t.callBuffer.Some? && (more == value[..q] || more == value[..0])
  {
    hide Advance;
  }

  lemma RecognisingIsSafe(ns: string, s: Parser, shown: string, value: string, q: nat)
    requires PlainNamespace(ns) && Tracked(s, shown) && !StopsAtReturn(shown) && q <= |value|
    requires forall p: nat :: p < |shown| ==> !OpensIn(ns, shown + value, p)
    requires forall r: nat :: r < q ==> !OpensAt(ns, s, value, r)
    ensures var (t, more) := Recognised(s, value, q); Safe(ns, t, shown + more)
  {
    RecognisingShows(s, value, q);
    hide OpensIn, OpensAt, Recognised, Tracked, StopsAtReturn, PlainNamespace;
    NothingOpensBefore(ns, s, shown, value, q);
    NothingOpensBefore(ns, s, shown, value, 0);
  }

  /** What is released is recorded, unless everything is kept. */
  lemma ReleasingShows(s: Parser, shown: string, value: string, k: nat)
    requires Tracked(s, shown) && !StopsAtReturn(shown) && s.callBuffer.None? && k <= |value|
    ensures var (t, more) := Released(s, value, k);
            && t.callBuffer.None? && Tracked(t, shown + more) && (shown + more) + t.candidate == shown + value
            && if IsSpace(value[..k]) then more == "" && t.candidate == value else more == value[..k] && t.candidate == value[k..]
  {
    assert shown + "" == shown && value == value[..k] + value[k..];
    Associates(shown, value[..k], value[k..]);
    RecordingTracks(s, shown, value[..k]);
    hide Advance, StopsAtReturn, IsSpace;
  }

  lemma ReleasingIsSafe(ns: string, s: Parser, shown: string, value: string, k: nat)
    requires Tracked(s, shown) && !StopsAtReturn(shown) && s.callBuffer.None? && k <= |value|
    requires forall p: nat :: !OpensIn(ns, shown + value, p)
    requires forall p: nat :: p < |shown| + k ==> !MayOpenIn(ns, shown + value, p)
    requires !HasOpeningLine(ns, value[k..]) && (IsSpace(value[..k]) ==> !HasOpeningLine(ns, value))
    ensures var (t, more) := Released(s, value, k); Safe(ns, t, shown + more)
  {
    ReleasingShows(s, shown, value, k);
    hide OpensIn, MayOpenIn, Tracked, Released, StopsAtReturn, HasOpeningLine, IsSpace;
  }

  lemma SpaceOpensNothing(ns: string, value: string, k: nat)
    requires k <= |value| && IsSpace(value[..k])
    ensures !HasOpeningLine(ns, value)
  {
    assert Space(value[..k][0]) && !Space('<');
    assert OpeningLf(ns)[0] == '<' && OpeningCrlf(ns)[0] == '<';
  }

  /** What is held back is no complete opening line. */
  lemma NothingCompleteIsHeld(ns: string, s: Parser, value: string, k: nat)
    requires PlainNamespace(ns) && MayOpenAt(ns, s, value, k) && !OpensAt(ns, s, value, k)
    ensures !HasOpeningLine(ns, value[k..])
  {
    hide Advance, HasOpeningLine, OpeningLinePrefix, PlainNamespace, SearchFinds;
    if HasOpeningLine(ns, value[k..]) {
      OpeningLinesAreFound(ns, value, k);
    }
  }

  lemma FeedingIsSafe(ns: string, s: Parser, shown: string, text: string)
    requires PlainNamespace(ns) && Safe(ns, s, shown)
    requires s.callBuffer.None? ==> !StopsAtReturn(shown)
    ensures var (t, more) := Fed(ns, s, text);
            Safe(ns, t, shown + more)
  {
    assert shown + "" == shown;
    if s.callBuffer.None? {
      var value := s.candidate + text;
      var opening := OpeningLineStart(ns, s, value, 0);
      Associates(shown, s.candidate, text);
      hide OpensIn, MayOpenIn, OpensAt, MayOpenAt, Advance, Tracked, HasOpeningLine, IsSpace, StopsAtReturn, PlainNamespace;
      if opening.Some? {
        forall p: nat | p < |shown| ensures !OpensIn(ns, shown + value, p) {
          OpeningsDoNotReachBack(ns, shown + s.candidate, text, p);
        }
        StartsAreInside(ns, s, value, opening.value);
        hide Safe, Recognised;
        RecognisingIsSafe(ns, s, shown, value, opening.value);
      } else {
        var possible := OpeningLinePrefixStart(ns, s, value, 0);
        var k := if possible.Some? then possible.value else |value|;
        StartsAreInside(ns, s, value, k);
        NothingOpens(ns, s, shown, text);
        NothingShownMayOpen(ns, s, shown, text, k);
        if possible.Some? {
          NothingCompleteIsHeld(ns, s, value, k);
        } else {
          NoTextHasNoOpening(ns, value[k..]);
        }
        if IsSpace(value[..k]) {
          SpaceOpensNothing(ns, value, k);
        }
        ReleasingIsSafe(ns, s, shown, value, k);
      }
    }
  }

  lemma NoTextHasNoOpening(ns: string, value: string)
    requires value == ""
    ensures !HasOpeningLine(ns, value)
  {
  }

  lemma StartsAreInside(ns: string, s: Parser, value: string, p: nat)
    ensures OpensAt(ns, s, value, p) || MayOpenAt(ns, s, value, p) ==> p < |value| && LineStart(value, p)
  {
  }

  lemma NothingIsSafe(ns: string)
    ensures Safe(ns, NEW_PARSER, "")
  {
    assert "" + "" == "";
  }

  /** Before the last piece came, the tracking had not stopped at a lone return of what was shown. */
  predicate TrackedUpTo(ns: string, pieces: seq<string>) {
    pieces == [] || !StopsAtReturn(FedAll(ns, pieces[..|pieces| - 1]).1)
  }

  /** Whatever the pieces, as long as the tracking composes at what was shown: nothing shown opens a call,
      and while no call was recognised, nothing fed so far does, nor will what was shown. */
  lemma {:induction false} StreamsAreSafe(ns: string, pieces: seq<string>)
    requires PlainNamespace(ns) && TrackedUpTo(ns, pieces)
    ensures Safe(ns, FedAll(ns, pieces).0, FedAll(ns, pieces).1)
  {
    if pieces == [] {
      NothingIsSafe(ns);
    } else {
      var before, text := pieces[..|pieces| - 1], pieces[|pieces| - 1];
      var (s, shown) := FedAll(ns, before);
      hide Safe, Fed, StopsAtReturn, PlainNamespace;
      if before != [] {
        var (earlier, shownBefore) := FedAll(ns, before[..|before| - 1]);
        PrefixesStopEarlier(shownBefore, Fed(ns, earlier, before[|before| - 1]).1);
      }
      StreamsAreSafe(ns, before);
      FeedingIsSafe(ns, s, shown, text);
    }
  }

  lemma ShownBefore(ns: string, pieces: seq<string>)
    requires !StopsAtReturn(FedAll(ns, pieces).1)
    ensures TrackedUpTo(ns, pieces)
    ensures pieces != [] ==> !StopsAtReturn(FedAll(ns, pieces[..|pieces| - 1]).1)
  {
    hide StopsAtReturn, Fed;
    if pieces != [] {
      var (s, shown) := FedAll(ns, pieces[..|pieces| - 1]);
      PrefixesStopEarlier(shown, Fed(ns, s, pieces[|pieces| - 1]).1);
    }
  }

  /** While no call is recognised, nothing fed so far opens one: no call is missed. */
  lemma NoCallIsMissed(ns: string, pieces: seq<string>, p: nat)
    requires PlainNamespace(ns) && TrackedUpTo(ns, pieces) && OpensIn(ns, Joined(pieces), p)
    ensures FedAll(ns, pieces).0.callBuffer.Some?
  {
    StreamsAreSafe(ns, pieces);
    NothingIsLost(ns, pieces);
    hide FedAll, TrackedUpTo, OpensIn, MayOpenIn, Tracked, StopsAtReturn, PlainNamespace, HasOpeningLine, Joined;
  }

  /** The user is shown a call's opening line at a line start outside a Markdown fence. */
  predicate ShowsACall(ns: string, shown: string, p: nat) {
    p < |shown| && LineStart(shown, p) && HasOpeningLine(ns, shown[p..]) && !FenceOpen(shown[..p])
  }

  lemma NothingOpensWhatIsShown(ns: string, s: Parser, shown: string, p: nat)
    requires Safe(ns, s, shown)
    ensures !OpensIn(ns, shown, p)
  {
    hide OpensIn, MayOpenIn, Tracked, HasOpeningLine;
    if OpensIn(ns, shown, p) && s.callBuffer.None? {
      OpeningsStay(ns, shown, s.candidate, p);
    }
  }

  lemma SoundPrefixesShowNoCall(ns: string, shown: string, p: nat)
    requires !OpensIn(ns, shown, p) && p <= |shown|
    requires PlainBreaks(shown[..p]) || !Advance(false, shown[..p]).0
    ensures !ShowsACall(ns, shown, p)
  {
    hide HasOpeningLine, Advance, FenceOpen, PlainBreaks;
    if PlainBreaks(shown[..p]) {
      TrackingFindsTheFence(false, shown[..p]);
    }
  }

  /** The user is shown no call, whatever the pieces, after any text whose line breaks are whole or after
      which the tracking is outside a fence. */
  lemma NoCallIsShown(ns: string, pieces: seq<string>, p: nat)
    requires PlainNamespace(ns) && TrackedUpTo(ns, pieces) && p <= |FedAll(ns, pieces).1|
    requires var before := FedAll(ns, pieces).1[..p]; WholeBreaks(before) || !Advance(false, before).0
    ensures !ShowsACall(ns, FedAll(ns, pieces).1, p)
  {
    hide FedAll, TrackedUpTo, Safe, ShowsACall, OpensIn, Advance, PlainNamespace, PlainBreaks, WholeBreaks;
    StreamsAreSafe(ns, pieces);
    var (s, shown) := FedAll(ns, pieces);
    NothingOpensWhatIsShown(ns, s, shown, p);
    NothingMoreIsPlain();
    SoundTrackingStays(shown[..p], "");
    assert shown[..p] + "" == shown[..p];
    SoundPrefixesShowNoCall(ns, shown, p);
  }

  lemma NothingMoreIsPlain()
    ensures PlainBreaks("")
  {
  }

  /** Inside a fence for good, everything is shown. */
  lemma EverythingIsShownInside(ns: string, s: Parser, shown: string, value: string)
    requires Tracked(s, shown) && s.callBuffer.None? && s.candidate == "" && !StopsAtReturn(shown)
    requires !WholeBreaks(shown) && Advance(false, shown).0 && value != "" && value[0] == 'x'
    ensures Fed(ns, s, value).1 == value
  {
    hide Advance, WholeBreaks, StopsAtReturn, SearchFinds, OpeningLinePrefix, Tracked, LineStart;
    assert "" + value == value && value[..|value|] == value;
    assert Space(value[0]) == false;
    forall q: nat | q < |value| ensures Advance(s.insideFence, s.linePrefix + value[..q]).0 {
      ReadsOn(s, shown, value[..q]);
      OtherBreaksStopTheTracking(false, shown, value[..q]);
    }
  }

  /** Whatever plain text comes next, no call is shown after it. */
  ghost predicate ShowsNoneNext(ns: string, s: Parser, shown: string) {
    forall plain: string, rest: string :: PlainBreaks(plain) ==>
      !ShowsACall(ns, shown + Fed(ns, s, plain + rest).1, |shown| + |plain|)
  }

  lemma SoundTrackingShowsNoneNext(ns: string, s: Parser, shown: string)
    requires PlainNamespace(ns) && Safe(ns, s, shown) && s.callBuffer.None? && s.candidate == "" && !StopsAtReturn(shown)
    ensures WholeBreaks(shown) || !Advance(false, shown).0 <==> ShowsNoneNext(ns, s, shown)
  {
    hide Safe, ShowsACall, Advance, PlainNamespace, PlainBreaks, WholeBreaks, StopsAtReturn, Fed, Tracked;
    if WholeBreaks(shown) || !Advance(false, shown).0 {
      forall plain: string, rest: string | PlainBreaks(plain)
        ensures !ShowsACall(ns, shown + Fed(ns, s, plain + rest).1, |shown| + |plain|)
      {
        PlainTextsShowNoCall(ns, s, shown, plain, rest);
      }
    } else {
      SafeIsTracked(ns, s, shown);
      var plain := ATextLeavesNoFence(shown);
      var value := plain + OpeningLf(ns);
      EverythingIsShownInside(ns, s, shown, value);
      FencedOpeningShows(ns, shown, plain);
    }
  }

  /** After any text shown, no plain text that follows shows a call, exactly when the line breaks shown were
      whole or the tracking is outside a fence. */
  lemma NoCallIsShownExactly(ns: string, pieces: seq<string>)
    requires PlainNamespace(ns) && FedAll(ns, pieces).0.callBuffer.None? && FedAll(ns, pieces).0.candidate == ""
    requires !StopsAtReturn(FedAll(ns, pieces).1)
    ensures var (s, shown) := FedAll(ns, pieces);
            WholeBreaks(shown) || !Advance(false, shown).0 <==>
              forall plain: string, rest: string :: PlainBreaks(plain) ==>
                !ShowsACall(ns, shown + Fed(ns, s, plain + rest).1, |shown| + |plain|)
  {
    hide FedAll, Safe, TrackedUpTo, ShowsACall, Advance, PlainNamespace, PlainBreaks, WholeBreaks, StopsAtReturn, Fed;
    var (s, shown) := FedAll(ns, pieces);
    ShownBefore(ns, pieces);
    StreamsAreSafe(ns, pieces);
    SoundTrackingShowsNoneNext(ns, s, shown);
  }

  lemma FencedOpeningShows(ns: string, shown: string, plain: string)
    requires !FenceOpen(shown + plain) && plain != "" && plain[|plain| - 1] == '\n'
    ensures ShowsACall(ns, shown + (plain + OpeningLf(ns)), |shown| + |plain|)
  {
    hide FenceOpen, OpeningLf;
    OneOpeningIsSome(ns);
    var value := plain + OpeningLf(ns);
    PositionsShift(shown, value, |plain|);
    assert value[..|plain|] == plain && value[|plain|..] == OpeningLf(ns);
  }

  lemma PlainTextsShowNoCall(ns: string, s: Parser, shown: string, plain: string, rest: string)
    requires PlainNamespace(ns) && Safe(ns, s, shown) && s.callBuffer.None? && s.candidate == "" && !StopsAtReturn(shown)
    requires (WholeBreaks(shown) || !Advance(false, shown).0) && PlainBreaks(plain)
    ensures !ShowsACall(ns, shown + Fed(ns, s, plain + rest).1, |shown| + |plain|)
  {
    hide Safe, Advance, PlainNamespace, PlainBreaks, WholeBreaks, StopsAtReturn, Fed, OpensIn;
    var value := plain + rest;
    var (t, more) := Fed(ns, s, value);
    FeedingIsSafe(ns, s, shown, value);
    NothingOpensWhatIsShown(ns, t, shown + more, |shown| + |plain|);
    SoundTrackingStays(shown, plain);
    FeedingLosesNothing(ns, s, value);
    if |plain| <= |more| {
      assert more[..|plain|] == (more + Held(t))[..|plain|] == value[..|plain|] == plain;
      assert (shown + more)[..|shown| + |plain|] == shown + plain;
      SoundPrefixesShowNoCall(ns, shown + more, |shown| + |plain|);
    }
  }

  // ---------------------------------------------------------------- when exactly a call is recognised

  /** Text was shown that ends in the middle of a line, outside a fence, and what is held could begin an
      opening line: the search takes it for the start of a line. */
  predicate Astray(ns: string, shown: string, held: string) {
    !LineStart(shown, |shown|) && OpeningLinePrefix(ns, held) && !Advance(false, shown).0
  }

  /** The next text brings a recognised call exactly if with it the whole text opens one. */
  ghost predicate Exact(ns: string, s: Parser, shown: string) {
    forall text: string ::
      Fed(ns, s, text).0.callBuffer.Some? <==> exists p: nat :: OpensIn(ns, shown + (s.candidate + text), p)
  }

  lemma RecognisedAt(ns: string, s: Parser, text: string)
    requires s.callBuffer.None?
    ensures Fed(ns, s, text).0.callBuffer.Some? <==> exists q: nat :: OpensAt(ns, s, s.candidate + text, q)
    ensures Fed(ns, s, text).0.callBuffer.Some? ==>
              OpensAt(ns, s, s.candidate + text, OpeningLineStart(ns, s, s.candidate + text, 0).value)
  {
    hide OpensAt, MayOpenAt, Advance, IsSpace;
  }

  lemma LineEndsKeepTheState(s: Parser, shown: string)
    requires Tracked(s, shown) && !StopsAtReturn(shown)
    ensures Advance(s.insideFence, s.linePrefix + "").0 == Advance(false, shown).0
  {
    ReadsOn(s, shown, "");
    assert shown + "" == shown;
    hide Advance, StopsAtReturn;
  }

  lemma LongerThanAnOpening(ns: string, held: string, text: string)
    requires HasOpeningLine(ns, held + text) && !HasOpeningLine(ns, held)
    ensures OpeningLinePrefix(ns, held)
  {
  }

  /** What a parser that is not astray takes for an opening line is one. */
  lemma FoundStartsOpen(ns: string, s: Parser, shown: string, text: string, q: nat)
    requires PlainNamespace(ns) && Safe(ns, s, shown) && s.callBuffer.None? && !StopsAtReturn(shown)
    requires !Astray(ns, shown, s.candidate) && OpensAt(ns, s, s.candidate + text, q)
    ensures OpensIn(ns, shown + (s.candidate + text), |shown| + q)
  {
    var value := s.candidate + text;
    if q == 0 && !LineStart(shown, |shown|) {
      FoundIsAnOpeningLine(ns, value, 0);
      assert value[0..] == value && value[..0] == "";
      hide HasOpeningLine, OpeningLinePrefix, Advance, SearchFinds, LineStart, OpensIn, MayOpenIn, StopsAtReturn;
      LongerThanAnOpening(ns, s.candidate, text);
      LineEndsKeepTheState(s, shown);
    } else {
      hide Safe, Astray, OpensAt, OpensIn, HasOpeningLine, Advance, StopsAtReturn, PlainNamespace;
      SafeIsTracked(ns, s, shown);
      StartsAreInside(ns, s, value, q);
      OpeningsAfterShownText(ns, s, shown, value, q);
    }
  }

  lemma SafeIsTracked(ns: string, s: Parser, shown: string)
    requires Safe(ns, s, shown) && s.callBuffer.None?
    ensures Tracked(s, shown) && !HasOpeningLine(ns, s.candidate)
  {
    hide Tracked, HasOpeningLine;
  }

  lemma UnlessAstrayRecognitionIsExact(ns: string, s: Parser, shown: string)
    requires PlainNamespace(ns) && Safe(ns, s, shown) && s.callBuffer.None? && !StopsAtReturn(shown)
    requires !Astray(ns, shown, s.candidate)
    ensures Exact(ns, s, shown)
  {
    hide Safe, Astray, OpensAt, OpensIn, StopsAtReturn, PlainNamespace, Fed;
    forall text: string
      ensures Fed(ns, s, text).0.callBuffer.Some? <==> exists p: nat :: OpensIn(ns, shown + (s.candidate + text), p)
    {
      RecognisedAt(ns, s, text);
      if q: nat :| OpensAt(ns, s, s.candidate + text, q) {
        FoundStartsOpen(ns, s, shown, text, q);
      } else {
        NothingOpens(ns, s, shown, text);
      }
    }
  }

  /** The rest of an opening line that was begun. */
  lemma TheRestOfAnOpening(ns: string, held: string) returns (text: string)
    requires OpeningLinePrefix(ns, held)
    ensures held + text == OpeningLf(ns) || held + text == OpeningCrlf(ns)
  {
    var opening := if held <= OpeningLf(ns) then OpeningLf(ns) else OpeningCrlf(ns);
    text := opening[|held|..];
  }

  /** In an opening line no further one fits. */
  lemma OneOpeningOnly(ns: string, opening: string, q: nat)
    requires (opening == OpeningLf(ns) || opening == OpeningCrlf(ns)) && q <= |opening|
    ensures HasOpeningLine(ns, opening)
    ensures q > 0 ==> !HasOpeningLine(ns, opening[q..])
  {
    var tag := OpenTag(ns);
    assert tag[|tag| - 1] == '>' && OpeningLf(ns)[|tag|] == '\n' && OpeningCrlf(ns)[|tag|] == '\r';
    assert OpeningLf(ns)[|tag| - 1] == '>';
  }

  lemma NothingOpensInAnOpening(ns: string, shown: string, value: string, p: nat)
    requires (value == OpeningLf(ns) || value == OpeningCrlf(ns)) && !LineStart(shown, |shown|)
    requires |shown| <= p
    ensures !OpensIn(ns, shown + value, p)
  {
    if p < |shown + value| {
      var q := p - |shown|;
      PositionsShift(shown, value, q);
      OneOpeningOnly(ns, value, q);
      hide Advance, HasOpeningLine;
    }
  }

  /** An astray parser recognises the opening line that is completed, although nothing opens. */
  lemma AstrayParsersRecogniseTooMuch(ns: string, s: Parser, shown: string)
    requires PlainNamespace(ns) && Safe(ns, s, shown) && s.callBuffer.None? && !StopsAtReturn(shown)
    requires Astray(ns, shown, s.candidate)
    ensures !Exact(ns, s, shown)
  {
    var text := TheRestOfAnOpening(ns, s.candidate);
    var value := s.candidate + text;
    OneOpeningOnly(ns, value, 0);
    assert value[0..] == value && value[..0] == "";
    LineEndsKeepTheState(s, shown);
    hide HasOpeningLine, OpeningLinePrefix, Advance, StopsAtReturn, PlainNamespace, OpensIn, MayOpenIn, Tracked, Fed;
    OpeningLinesAreFound(ns, value, 0);
    assert OpensAt(ns, s, value, 0);
    RecognisedAt(ns, s, text);
    Associates(shown, s.candidate, text);
    forall p: nat ensures !OpensIn(ns, shown + value, p) {
      if p < |shown| {
        OpeningsDoNotReachBack(ns, shown + s.candidate, text, p);
      } else {
        NothingOpensInAnOpening(ns, shown, value, p);
      }
    }
  }

  /** After any pieces that brought no call, a next text brings one exactly if the whole text opens one,
      whatever that text is, if and only if the parser is not astray. */
  lemma RecognitionIsExactUnlessAstray(ns: string, pieces: seq<string>)
    requires PlainNamespace(ns)
    requires FedAll(ns, pieces).0.callBuffer.None? && !StopsAtReturn(FedAll(ns, pieces).1)
    ensures var (s, shown) := FedAll(ns, pieces);
            !Astray(ns, shown, s.candidate) <==>
              forall text: string ::
                Fed(ns, s, text).0.callBuffer.Some? <==> exists p: nat :: OpensIn(ns, shown + (s.candidate + text), p)
  {
    var (s, shown) := FedAll(ns, pieces);
    ShownBefore(ns, pieces);
    StreamsAreSafe(ns, pieces);
    hide FedAll, TrackedUpTo, Safe, Astray, StopsAtReturn, PlainNamespace, Fed, OpensIn;
    assert Exact(ns, s, shown) <==>
             forall text: string ::
               Fed(ns, s, text).0.callBuffer.Some? <==> exists p: nat :: OpensIn(ns, shown + (s.candidate + text), p);
    hide Exact;
    if Astray(ns, shown, s.candidate) {
      AstrayParsersRecogniseTooMuch(ns, s, shown);
    } else {
      UnlessAstrayRecognitionIsExact(ns, s, shown);
    }
  }

  /** No piece is fed to an astray parser; pieces fed at line starts never are. */
  predicate NeverAstray(ns: string, pieces: seq<string>) {
    forall i :: 0 <= i < |pieces| ==> var (s, shown) := FedAll(ns, pieces[..i]); !Astray(ns, shown, s.candidate)
  }

  predicate FedAtLineStarts(ns: string, pieces: seq<string>) {
    forall i :: 0 <= i < |pieces| ==> LineStart(FedAll(ns, pieces[..i]).1, |FedAll(ns, pieces[..i]).1|)
  }

  lemma LineStartsAreNotAstray(ns: string, pieces: seq<string>)
    requires FedAtLineStarts(ns, pieces)
    ensures NeverAstray(ns, pieces)
  {
    hide FedAll, OpeningLinePrefix, Advance;
  }

  lemma NeverAstrayBefore(ns: string, pieces: seq<string>)
    requires pieces != [] && NeverAstray(ns, pieces)
    ensures var before := pieces[..|pieces| - 1];
            NeverAstray(ns, before) && !Astray(ns, FedAll(ns, before).1, FedAll(ns, before).0.candidate)
  {
    var before := pieces[..|pieces| - 1];
    assert forall i :: 0 <= i < |before| ==> before[..i] == pieces[..i];
    hide Astray, FedAll;
  }

  lemma RecognisedOpens(ns: string, s: Parser, shown: string, text: string)
    requires PlainNamespace(ns) && Safe(ns, s, shown) && s.callBuffer.None? && !StopsAtReturn(shown)
    requires !Astray(ns, shown, s.candidate) && Fed(ns, s, text).0.callBuffer.Some?
    ensures exists p: nat :: OpensIn(ns, shown + s.candidate + text, p)
  {
    Associates(shown, s.candidate, text);
    hide Astray, Safe, OpensIn, Fed, StopsAtReturn, PlainNamespace;
    UnlessAstrayRecognitionIsExact(ns, s, shown);
  }

  lemma RecognisedNow(ns: string, pieces: seq<string>)
    requires PlainNamespace(ns) && pieces != [] && !StopsAtReturn(FedAll(ns, pieces[..|pieces| - 1]).1)
    requires NeverAstray(ns, pieces)
    requires FedAll(ns, pieces[..|pieces| - 1]).0.callBuffer.None? && FedAll(ns, pieces).0.callBuffer.Some?
    ensures exists p: nat :: OpensIn(ns, Joined(pieces), p)
  {
    NeverAstrayBefore(ns, pieces);
    FedOnce(ns, pieces);
    var before := pieces[..|pieces| - 1];
    NothingIsLost(ns, before);
    hide Astray, Safe, NeverAstray, OpensIn, Fed, FedAll, StopsAtReturn, PlainNamespace;
    ShownBefore(ns, before);
    StreamsAreSafe(ns, before);
    var s, shown := FedAll(ns, before).0, FedAll(ns, before).1;
    assert shown + s.candidate + pieces[|pieces| - 1] == Joined(pieces);
    RecognisedOpens(ns, s, shown, pieces[|pieces| - 1]);
  }

  lemma {:induction false} RecognisedTextsOpen(ns: string, pieces: seq<string>)
    requires PlainNamespace(ns) && TrackedUpTo(ns, pieces) && NeverAstray(ns, pieces)
    requires FedAll(ns, pieces).0.callBuffer.Some?
    ensures exists p: nat :: OpensIn(ns, Joined(pieces), p)
  {
    NothingFed(ns);
    var before, text := pieces[..|pieces| - 1], pieces[|pieces| - 1];
    hide NeverAstray, OpensIn, FedAll, StopsAtReturn, PlainNamespace;
    if FedAll(ns, before).0.callBuffer.None? {
      RecognisedNow(ns, pieces);
    } else {
      NeverAstrayBefore(ns, pieces);
      ShownBefore(ns, before);
      RecognisedTextsOpen(ns, before);
      var p: nat :| OpensIn(ns, Joined(before), p);
      OpeningsStay(ns, Joined(before), text, p);
      assert Joined(pieces) == Joined(before) + text;
    }
  }

  /** Fed to a parser that is never astray, a call is recognised exactly when the text opens one. */
  lemma RecognitionIsExact(ns: string, pieces: seq<string>)
    requires PlainNamespace(ns) && TrackedUpTo(ns, pieces) && NeverAstray(ns, pieces)
    ensures FedAll(ns, pieces).0.callBuffer.Some? <==> exists p: nat :: OpensIn(ns, Joined(pieces), p)
  {
    hide NeverAstray, OpensIn, FedAll, PlainNamespace, TrackedUpTo, Joined;
    if FedAll(ns, pieces).0.callBuffer.Some? {
      RecognisedTextsOpen(ns, pieces);
    } else if p: nat :| OpensIn(ns, Joined(pieces), p) {
      NoCallIsMissed(ns, pieces, p);
    }
  }

  lemma NothingFed(ns: string)
    ensures FedAll(ns, []) == (NEW_PARSER, "")
  {
  }

  lemma FedOnce(ns: string, pieces: seq<string>)
    requires pieces != []
    ensures FedAll(ns, pieces).0 == Fed(ns, FedAll(ns, pieces[..|pieces| - 1]).0, pieces[|pieces| - 1]).0
  {
    hide Fed;
  }

  /** The first of the fence states that a line feed after a stopped line leads to, or the other one. */
  lemma ATextTurnsTheFence(fence: bool, line: string) returns (text: string)
    requires line != "" && LineEnd(line) == |line| && line[|line| - 1] == '\r'
    ensures (text == "\n" || text == "\n```\n") && Advance(fence, line + text).0 == !fence
  {
    LineFeedGoesOn(fence, line);
    text := if Advance(fence, line + "\n").0 == !fence then "\n" else "\n```\n";
    hide Advance;
  }

  /** After a line feed, perhaps with a fence mark, an opening line is the only one. */
  lemma OneOpeningAfter(ns: string, text: string, q: nat)
    requires (text == "\n" || text == "\n```\n") && q < |text + OpeningLf(ns)| && q != |text|
    ensures !HasOpeningLine(ns, (text + OpeningLf(ns))[q..])
  {
    var value := text + OpeningLf(ns);
    assert OpeningLf(ns)[0] == '<' && OpeningCrlf(ns)[0] == '<';
    if q > |text| {
      assert value[q..] == OpeningLf(ns)[q - |text|..];
      OneOpeningOnly(ns, OpeningLf(ns), q - |text|);
      hide HasOpeningLine;
    } else {
      assert value[q..][0] == text[q];
    }
  }

  lemma FoundAfter(ns: string, s: Parser, text: string, q: nat)
    requires PlainNamespace(ns) && (text == "\n" || text == "\n```\n")
    ensures OpensAt(ns, s, text + OpeningLf(ns), q) <==>
            q == |text| && !Advance(s.insideFence, s.linePrefix + text).0
  {
    var value := text + OpeningLf(ns);
    assert value[..|text|] == text && value[|text|..] == OpeningLf(ns);
    OneOpeningOnly(ns, OpeningLf(ns), 0);
    assert OpeningLf(ns)[0..] == OpeningLf(ns) && |OpeningLf(ns)| > 0;
    hide Advance, HasOpeningLine, PlainNamespace, SearchFinds, OpeningLf;
    OpeningLinesAreFound(ns, value, |text|);
    if SearchFinds(ns, value, q) {
      FoundIsAnOpeningLine(ns, value, q);
      if q != |text| {
        OneOpeningAfter(ns, text, q);
      }
    }
  }

  /** Once the tracking stopped at a lone return of what was shown, some next text is misread: an opening
      line that counts is missed, or one that does not is recognised. */
  lemma AfterALoneReturnCallsAreMisread(ns: string, s: Parser, shown: string)
    requires PlainNamespace(ns) && Safe(ns, s, shown) && s.callBuffer.None? && s.candidate == ""
    requires StopsAtReturn(shown)
    ensures !Exact(ns, s, shown)
  {
    var fence := Advance(false, shown).0;
    StoppedTrackingStays(false, shown, "");
    var text := ATextTurnsTheFence(fence, s.linePrefix);
    var value := text + OpeningLf(ns);
    hide Advance, HasOpeningLine, StopsAtReturn, PlainNamespace, OpensIn, MayOpenIn, OpensAt, OpeningLf, Fed;
    assert "" + value == value && shown + "" == shown;
    RecognisedAt(ns, s, value);
    FoundAfter(ns, s, text, |text|);
    if fence {
      NothingOpensAnywhere(ns, shown, value);
    } else {
      TheOpeningCounts(ns, shown, text);
      forall q: nat ensures !OpensAt(ns, s, value, q) {
        FoundAfter(ns, s, text, q);
      }
    }
  }

  lemma NothingOpensAnywhere(ns: string, shown: string, value: string)
    requires StopsAtReturn(shown) && Advance(false, shown).0
    requires forall p: nat :: p < |shown| ==> !OpensIn(ns, shown, p) && !MayOpenIn(ns, shown, p)
    ensures forall p: nat :: !OpensIn(ns, shown + value, p)
  {
    hide Advance, StopsAtReturn, OpensIn, MayOpenIn;
    forall p: nat ensures !OpensIn(ns, shown + value, p) {
      if p < |shown| {
        OpeningsDoNotReachBack(ns, shown, value, p);
      } else {
        NothingOpensInside(ns, shown, value, p);
      }
    }
  }

  lemma NothingOpensInside(ns: string, shown: string, value: string, p: nat)
    requires StopsAtReturn(shown) && Advance(false, shown).0 && |shown| <= p
    ensures !OpensIn(ns, shown + value, p)
  {
    hide Advance, HasOpeningLine, StopsAtReturn, LineStart;
    if p < |shown + value| {
      PositionsShift(shown, value, p - |shown|);
      StoppedTrackingStays(false, shown, value[..p - |shown|]);
    }
  }

  lemma TheOpeningCounts(ns: string, shown: string, text: string)
    requires StopsAtReturn(shown) && !Advance(false, shown).0 && text != "" && text[|text| - 1] == '\n'
    ensures OpensIn(ns, shown + (text + OpeningLf(ns)), |shown| + |text|)
  {
    hide Advance, StopsAtReturn, OpeningLf;
    var value := text + OpeningLf(ns);
    assert value[..|text|] == text && value[|text|..] == OpeningLf(ns);
    PositionsShift(shown, value, |text|);
    StoppedTrackingStays(false, shown, text);
    OneOpeningOnly(ns, OpeningLf(ns), 0);
    OneOpeningIsSome(ns);
  }

  lemma OneOpeningIsSome(ns: string)
    ensures OpeningLf(ns) != "" && OpeningLf(ns)[0..] == OpeningLf(ns) && HasOpeningLine(ns, OpeningLf(ns))
  {
  }

  lemma XIsReleased(ns: string)
    ensures FedAll(ns, ["x"]) == (Parser("", None, false, "x"), "x")
  {
    assert "" + "x" == "x" && "x"[0..] == "x" && "x"[..1] == "x" && "x"[1..] == "";
    assert OpeningLf(ns)[0] == '<' && OpeningCrlf(ns)[0] == '<';
    assert Advance(false, "x") == (false, "x");
    assert !OpeningLinePrefix(ns, "x");
    assert !OpensAt(ns, NEW_PARSER, "x", 0) by {
      if SearchFinds(ns, "x", 0) {
        FoundIsAnOpeningLine(ns, "x", 0);
      }
    }
    assert OpeningLinePrefixStart(ns, NEW_PARSER, "x", 0) == None;
    assert !IsSpace("x");
    assert Fed(ns, NEW_PARSER, "x") == (Parser("", None, false, "x"), "x");
    assert ["x"][..0] == [] && FedAll(ns, []) == (NEW_PARSER, "");
  }

  /** Fed in the middle of a line, an opening line is recognised all the same: the position a piece
      starts at counts as a line start when nothing is held back. */
  lemma MidLineCallsAreRecognised(ns: string)
    ensures var pieces := ["x", OpeningLf(ns)];
            && FedAll(ns, pieces).0.callBuffer.Some?
            && forall p: nat :: !OpensIn(ns, Joined(pieces), p)
  {
    var opening := OpeningLf(ns);
    var pieces := ["x", opening];
    assert pieces[..1] == ["x"];
    XIsReleased(ns);
    var s := Parser("", None, false, "x");
    assert "" + opening == opening && "x" + opening[..0] == "x";
    assert Occurs(opening, opening, 0) && Find(opening, opening, 0) == 0;
    assert OpensAt(ns, s, opening, 0);
    assert Joined(["x"]) == "x" by { assert ["x"][..0] == [] && "" + "x" == "x"; }
    assert Joined(pieces) == "x" + opening;
    FedOnce(ns, pieces);
    RecognisedAt(ns, s, opening);
    hide FedAll, Fed, OpensAt, Joined, OpensIn, OpeningLf, HasOpeningLine;
    forall p: nat ensures !OpensIn(ns, "x" + opening, p) {
      if p == 0 {
        XOpensNothing(ns, "x" + opening);
      } else {
        NothingOpensInAnOpening(ns, "x", opening, p);
      }
    }
  }

  lemma XOpensNothing(ns: string, text: string)
    requires text != "" && text[0] == 'x'
    ensures !OpensIn(ns, text, 0)
  {
    assert text[0..] == text && OpeningLf(ns)[0] == '<' && OpeningCrlf(ns)[0] == '<';
  }
}
