/** The barrier's events on the wire: whatever the interleaving, the run stream's three tool rules
    hold for them. */
module ToolBarrierWire {
  import opened Wire
  import opened ToolBarrier
  import opened ToolBarrierProperties
  import RunStreams

  function Digits(n: nat): string {
    if n < 10 then [('0' as int + n) as char] else Digits(n / 10) + [('0' as int + n % 10) as char]
  }

  function Number(digits: string): int {
    if digits == "" then 0
    else 10 * Number(digits[..|digits| - 1]) + (digits[|digits| - 1] as int - '0' as int)
  }

  lemma {:induction false} DigitsReadBack(n: nat)
    ensures Number(Digits(n)) == n
  {
    if n >= 10 {
      DigitsReadBack(n / 10);
      var last := [('0' as int + n % 10) as char];
      assert (Digits(n / 10) + last)[..|Digits(n / 10)|] == Digits(n / 10);
    } else {
      assert Number(Digits(n)[..0]) == 0;
    }
  }

  /** The id the barrier mints for its call `n`. */
  function ToolUseIdOf(n: nat): ToolUseId {
    "call-" + Digits(n + 1)
  }

  lemma MintedIdsDiffer(n: nat, m: nat)
    ensures ToolUseIdOf(n) == ToolUseIdOf(m) ==> n == m
  {
    DigitsReadBack(n + 1);
    DigitsReadBack(m + 1);
    assert ToolUseIdOf(n)[5..] == Digits(n + 1) && ToolUseIdOf(m)[5..] == Digits(m + 1);
  }

  /** The events handed out, in order. */
  function GivenEvents(log: seq<Entry>): seq<RelayEvent> {
    if log == [] then []
    else
      var last := log[|log| - 1];
      GivenEvents(log[..|log| - 1]) + if last.Given? then [last.ev] else []
  }

  lemma {:induction false} GivenEventsAreLogged(log: seq<Entry>)
    ensures forall ev :: ev in GivenEvents(log) <==> Given(ev) in log
  {
    if log != [] {
      GivenEventsAreLogged(log[..|log| - 1]);
      assert log == log[..|log| - 1] + [log[|log| - 1]];
    }
  }

  /** No event is handed out twice, and a result only after its call was. */
  ghost predicate InOrder(given: seq<RelayEvent>) {
    && Distinct(given)
    && forall k :: 0 <= k < |given| && given[k].ResultEvent? ==> CallEvent(given[k].n) in given[..k]
  }

  lemma {:induction false} GivenEventsAreInOrder(log: seq<Entry>)
    requires LogSafe(log)
    ensures InOrder(GivenEvents(log))
  {
    if log != [] {
      var before, last := log[..|log| - 1], log[|log| - 1];
      assert LogSafe(before) by {
        assert forall k :: 0 <= k < |before| ==> before[..k] == log[..k];
      }
      GivenEventsAreInOrder(before);
      GivenEventsAreLogged(before);
      assert MayLog(before, last);
      if last.Given? {
        OneMoreGiven(before, last.ev);
      } else {
        assert GivenEvents(before) + [] == GivenEvents(before);
      }
    }
  }

  lemma OneMoreGiven(before: seq<Entry>, ev: RelayEvent)
    requires LogSafe(before) && MayLog(before, Given(ev)) && InOrder(GivenEvents(before))
    ensures InOrder(GivenEvents(before) + [ev])
  {
    var given := GivenEvents(before);
    GivenEventsAreLogged(before);
    if ev.ResultEvent? {
      var call := CallEvent(ev.n);
      AcceptedWasGiven(before, call);
    }
    forall k | 0 <= k < |given + [ev]| && (given + [ev])[k].ResultEvent?
      ensures CallEvent((given + [ev])[k].n) in (given + [ev])[..k]
    {
      assert (given + [ev])[..k] == given[..k];
      assert k == |given| ==> given[..k] == given;
    }
  }

  lemma AcceptedWasGiven(log: seq<Entry>, ev: RelayEvent)
    requires LogSafe(log) && Accepted(ev) in log
    ensures Given(ev) in log
  {
    var k :| 0 <= k < |log| && log[k] == Accepted(ev);
    assert MayLog(log[..k], log[k]);
  }

  // ---------------------------------------------------------------- on the wire

  datatype ToolRef = CallOf(id: ToolUseId) | ResultOf(id: ToolUseId)

  function RefOf(e: RunEvent): Option<ToolRef> {
    match e.body
    case ToolCall(id, _, _, _) => Some(CallOf(id))
    case ToolResult(id, _, _) => Some(ResultOf(id))
    case _ => None
  }

  /** The tool events of a trace, in order. */
  function Refs(t: RunStreams.Trace): seq<ToolRef> {
    if t == [] then []
    else
      var last := RefOf(t[|t| - 1]);
      Refs(t[..|t| - 1]) + if last.Some? then [last.value] else []
  }

  function Image(ev: RelayEvent): ToolRef {
    if ev.CallEvent? then CallOf(ToolUseIdOf(ev.n)) else ResultOf(ToolUseIdOf(ev.n))
  }

  function Images(given: seq<RelayEvent>): seq<ToolRef> {
    seq(|given|, i requires 0 <= i < |given| => Image(given[i]))
  }

  lemma {:induction false} RefsTellCallsAndResults(t: RunStreams.Trace)
    ensures forall id :: CallOf(id) in Refs(t) <==> RunStreams.Called(t, id)
    ensures forall id :: ResultOf(id) in Refs(t) <==> RunStreams.Answered(t, id)
  {
    if t != [] {
      var before, e := t[..|t| - 1], t[|t| - 1];
      assert t == before + [e];
      RefsTellCallsAndResults(before);
      RunStreams.LastEvent(before, e);
    }
  }

  lemma ImagesTellEvents(given: seq<RelayEvent>, ev: RelayEvent)
    ensures Image(ev) in Images(given) <==> ev in given
  {
    var images := Images(given);
    forall i | 0 <= i < |given| ensures images[i] == Image(ev) <==> given[i] == ev {
      MintedIdsDiffer(given[i].n, ev.n);
    }
    if ev in given {
      var i :| 0 <= i < |given| && given[i] == ev;
      assert images[i] == Image(ev);
    }
  }

  lemma InOrderKeepsTheToolRules(given: seq<RelayEvent>, t: RunStreams.Trace, e: RunEvent, k: nat)
    requires InOrder(given) && k < |given|
    requires Refs(t) == Images(given[..k]) && RefOf(e) == Some(Image(given[k]))
    requires RunStreams.InRunLanguage(t) && RunStreams.HeaderFits(t, e)
    ensures RunStreams.MayFollow(t, e)
  {
    hide InOrder;
    RefsTellCallsAndResults(t);
    NextGivenMayFollow(given, k);
  }

  /** Whatever the interleaving at the barrier: after a trace that carries the first k handed-out
      events among any other events, the next one breaks no rule of the run stream. */
  lemma RelayedEventsKeepTheToolRules(steps: seq<Step>, carries: string -> bool,
                                      t: RunStreams.Trace, e: RunEvent, k: nat)
    requires var given := GivenEvents(After(steps, carries).log);
             k < |given| && Refs(t) == Images(given[..k]) && RefOf(e) == Some(Image(given[k]))
    requires RunStreams.InRunLanguage(t) && RunStreams.HeaderFits(t, e)
    ensures RunStreams.BrokenRule(RunStreams.PromisesOf(t), e).None?
  {
    hide Inv, RunStreams.PromisesOf, RunStreams.BrokenRule, RunStreams.InRunLanguage;
    EveryLogIsSafe(steps, carries);
    GivenEventsAreInOrder(After(steps, carries).log);
    InOrderKeepsTheToolRules(GivenEvents(After(steps, carries).log), t, e, k);
    RunStreams.AcceptsExactlyWhatMayFollow(t, e);
  }

  lemma NextGivenMayFollow(given: seq<RelayEvent>, k: nat)
    requires InOrder(given) && k < |given|
    ensures var earlier, id := Images(given[..k]), ToolUseIdOf(given[k].n);
            && Image(given[k]) !in earlier
            && (given[k].ResultEvent? ==> CallOf(id) in earlier)
            && given[k] !in given[..k]
  {
    ImagesTellEvents(given[..k], given[k]);
    ImagesTellEvents(given[..k], CallEvent(given[k].n));
  }
}
