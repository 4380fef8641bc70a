/** The stream parser as it updates its fields (src/agent_runtime/text_tool_protocol.py:141-285), proved to
    feed as `TextToolStream.Fed` says. */
module TextToolStreamParsers {
  import opened Wire
  import opened MarkdownFences
  import opened TextToolStream

  method AllOccurrences(value: string, part: string) returns (positions: set<nat>)
    requires part != ""
    ensures positions == Occurrences(value, part, 0)
  {
    hide Occurrences, Find, Occurs;
    positions := {};
    var start := Find(value, part, 0);
    ghost var rest := Occurrences(value, part, 0);
    TheSearchGoesOn(value, part, 0);
    while start >= 0
      invariant start >= 0 ==> rest == {start as nat} + Occurrences(value, part, start + |part|)
      invariant start < 0 ==> rest == {}
      invariant positions + rest == Occurrences(value, part, 0)
      decreases if start < 0 then 0 else 1 + |value| - start
    {
      positions := positions + {start as nat};
      var from: nat := start + |part|;
      rest := Occurrences(value, part, from);
      TheSearchGoesOn(value, part, from);
      start := Find(value, part, from);
    }
  }

  lemma {:induction false} SomeIsLeast(s: set<nat>) returns (least: nat)
    requires s != {}
    ensures least in s && forall p :: p in s ==> least <= p
  {
    least :| least in s;
    var rest := s - {least};
    assert s == rest + {least};
    if rest != {} {
      var other := SomeIsLeast(rest);
      least := if other < least then other else least;
    }
  }

  class TextToolStreamParser {
    const ns: string
    var candidate: string
    var callBuffer: Option<string>
    var insideFence: bool
    var linePrefix: string

    ghost function View(): Parser
      reads this
    {
      Parser(candidate, callBuffer, insideFence, linePrefix)
    }

    constructor (ns: string)
      ensures View() == NEW_PARSER && this.ns == ns
    {
      this.ns, candidate, callBuffer, insideFence, linePrefix := ns, "", None, false, "";
    }

    /** The text that can go on to the user now. */
    method Feed(text: string) returns (returned: string)
      modifies this
      ensures (View(), returned) == Fed(ns, old(View()), text)
    {
      hide Advance, OpeningLineStart, OpeningLinePrefixStart, IsSpace, SearchFinds, OpeningLinePrefix;
      SearchReadsTheFencesOnly(ns, View(), View().(candidate := candidate + text), candidate + text, 0);
      if callBuffer.Some? {
        callBuffer := Some(callBuffer.value + text);
        return "";
      }
      var value := candidate + text;
      candidate := value;
      var opening := FindOpeningLine();
      if opening.Some? {
        returned := value[..opening.value];
        RecordMarkdownText(returned);
        callBuffer := Some(if IsSpace(returned) then value else value[opening.value..]);
        candidate := "";
        return if IsSpace(returned) then "" else returned;
      }
      var possible := FindOpeningLinePrefix();
      if possible.None? {
        assert value[..|value|] == value && value[|value|..] == "";
        if IsSpace(value) {
          return "";
        }
        candidate := "";
        RecordMarkdownText(value);
        return value;
      }
      returned := value[..possible.value];
      if IsSpace(returned) {
        return "";
      }
      candidate := value[possible.value..];
      RecordMarkdownText(returned);
    }

    method RecordMarkdownText(text: string)
      modifies this`insideFence, this`linePrefix
      ensures View() == Recorded(old(View()), text)
    {
      insideFence, linePrefix := AdvanceMarkdownFences(insideFence, linePrefix + text);
    }

    /** The complete opening lines at line starts, tried in order until one is outside a fence. */
    method FindOpeningLine() returns (start: Option<nat>)
      ensures start == OpeningLineStart(ns, View(), candidate, 0)
    {
      hide Advance, Occurrences;
      var lf := AllOccurrences(candidate, OpeningLf(ns));
      var crlf := AllOccurrences(candidate, OpeningCrlf(ns));
      var positions := set p | p in lf + crlf && (p == 0 || candidate[p - 1] == '\n');
      hide OpeningLf, OpeningCrlf;
      while positions != {}
        invariant forall p: nat :: p in positions ==> p < |candidate| && LineStart(candidate, p) && SearchFinds(ns, candidate, p)
        invariant forall p: nat :: OpensAt(ns, View(), candidate, p) ==> p in positions
      {
        ghost var first := SomeIsLeast(positions);
        var least :| least in positions && forall p :: p in positions ==> least <= p;
        var fence, _ := AdvanceMarkdownFences(insideFence, linePrefix + candidate[..least]);
        if !fence {
          FirstOpening(ns, View(), candidate, least);
          return Some(least);
        }
        positions := positions - {least};
      }
      start := None;
    }

    method FindOpeningLinePrefix() returns (start: Option<nat>)
      ensures start == OpeningLinePrefixStart(ns, View(), candidate, 0)
    {
      for p := 0 to |candidate|
        invariant OpeningLinePrefixStart(ns, View(), candidate, p) == OpeningLinePrefixStart(ns, View(), candidate, 0)
      {
        if (p == 0 || candidate[p - 1] == '\n') && OpeningLinePrefix(ns, candidate[p..]) {
          var fence, _ := AdvanceMarkdownFences(insideFence, linePrefix + candidate[..p]);
          if !fence {
            return Some(p);
          }
        }
      }
      start := None;
    }
  }

  lemma FirstOpening(ns: string, s: Parser, value: string, p: nat)
    requires OpensAt(ns, s, value, p) && forall q: nat :: OpensAt(ns, s, value, q) ==> p <= q
    ensures OpeningLineStart(ns, s, value, 0) == Some(p)
  {
    hide OpensAt;
    var start := OpeningLineStart(ns, s, value, 0);
    assert start.Some? && !(p < start.value);
  }

  lemma {:induction false} SearchReadsTheFencesOnly(ns: string, s: Parser, t: Parser, value: string, from: nat)
    requires s.insideFence == t.insideFence && s.linePrefix == t.linePrefix
    ensures OpeningLineStart(ns, s, value, from) == OpeningLineStart(ns, t, value, from)
    ensures OpeningLinePrefixStart(ns, s, value, from) == OpeningLinePrefixStart(ns, t, value, from)
    decreases |value| - from
  {
    hide Advance, SearchFinds, OpeningLinePrefix;
    if from < |value| {
      SearchReadsTheFencesOnly(ns, s, t, value, from + 1);
    }
  }
}
