/** What becomes of every call at the barrier, told from the steps of a run: which calls are admitted, in what
    order their events come up, and that the content handed out and replied for a call is what its own forward
    ended with. */
module ToolBarrierResults {
  import opened Wire
  import opened ToolBarrier
  import opened ToolBarrierProperties

  // ---------------------------------------------------------------- one step

  /** What the end of a forward leaves for its call: the app tool's outcome as it is, the failure's fixed text as
      an error; nothing when it was cancelled or when the text carries the capability. */
  predicate Leaves(ending: Ending, carries: string -> bool, left: Option<Outcome>) {
    match ending
    case ForwardCancelled => left == None
    case ForwardFailed =>
      left == if carries(CALL_FAILED_TEXT) then None else Some(Outcome(CALL_FAILED_TEXT, true))
    case ForwardReturned(o) => left == if carries(o.content) then None else Some(Outcome(o.content, o.isError))
  }

  /** The completion of a forward: what it left becomes its call's outcome and the last event of the queue; if it
      left nothing, the call is answered with nothing, and only text that carries the capability refuses the barrier. */
  lemma AnEndedForwardQueuesItsOutcome(s: Run, n: nat, ending: Ending, carries: string -> bool, t: Run)
    requires Numbered(s.b) && n in s.b.forwards && t == Next(s, ForwardEnds(n, ending), carries)
    ensures forall left: Option<Outcome> :: Leaves(ending, carries, left) ==>
              match left
              case Some(_) =>
                && t.b.calls == s.b.calls[n := s.b.calls[n].(outcome := left)]
                && t.b.ready == s.b.ready + [ResultEvent(n)]
                && t.b.changed && t.b.reflected == s.b.reflected
              case None =>
                && t.b.calls == s.b.calls[n := if s.b.calls[n].response.Waiting?
                                               then s.b.calls[n].(response := Resolved(Unanswered)) else s.b.calls[n]]
                && t.b.ready == s.b.ready
                && (t.b.reflected <==> s.b.reflected || !ending.ForwardCancelled?)
                && (!ending.ForwardCancelled? ==> t.b.changed)
    ensures n !in t.b.forwards
    ensures forall m: nat :: m != n ==> (m in t.b.forwards <==> m in s.b.forwards)
    ensures t.b.pending == s.b.pending && t.b.handedOut == s.b.handedOut && t.log == s.log
    ensures t.b.stopped == s.b.stopped && t.b.unoffered == s.b.unoffered && t.parked == s.parked
  {
    var call := s.b.calls[n];
    assert s.b.calls[n := call] == s.b.calls;
  }

  /** A call is admitted exactly when the barrier is not stopped, fewer than three calls are pending and none of
      them has its request id; its event comes up last. A refused call changes nothing. */
  lemma ACallIsAdmittedBelowTheLimit(s: Run, id: RequestId, params: Params, carries: string -> bool, t: Run)
    requires Numbered(s.b) && t == Next(s, CallArrives(id, params), carries)
    ensures t != s <==> !s.b.stopped && |s.b.pending| < 3 && forall n :: n in s.b.pending ==> s.b.calls[n].requestId != id
    ensures t != s ==>
              && t == s.(b := s.b.(calls := t.b.calls, pending := t.b.pending, ready := t.b.ready, changed := true))
              && t.b.calls == s.b.calls + [Call(id, params, Waiting, false, None, false)]
              && t.b.pending == s.b.pending + [|s.b.calls|]
              && t.b.ready == s.b.ready + [CallEvent(|s.b.calls|)]
  {
    hide PendingWith;
    if t.b.calls == s.b.calls {
      assert !Admits(s.b, id);
    }
  }

  /** The event is still wanted: a result, or a call that was not given up. */
  predicate Wanted(b: Barrier, ev: RelayEvent)
    requires ev.n < |b.calls|
  {
    ev.CallEvent? ==>
      var call := b.calls[ev.n];
      !call.cancelledByCli && !call.response.TaskCancelled? && call.response != Resolved(Unanswered)
  }

  /** The one reader gets the first event of the queue that is still wanted, and only the given-up calls before it
      are dropped; it parks exactly when none is wanted. A barrier that may not be asked hands out nothing. */
  lemma AReaderGetsTheFirstWantedEvent(s: Run, step: Step, carries: string -> bool, t: Run, i: nat)
    requires Numbered(s.b) && Enabled(s, step) && (step.ReaderAsks? || step.ReaderWakes?) && t == Next(s, step, carries)
    requires i <= |s.b.ready| && forall j :: 0 <= j < i ==> !Wanted(s.b, s.b.ready[j])
    requires i < |s.b.ready| ==> Wanted(s.b, s.b.ready[i])
    ensures if s.b.handedOut.Some? || s.b.unoffered || s.b.reflected || s.b.stopped
            then t == s.(parked := false)
            else if i < |s.b.ready|
            then t == s.(b := s.b.(ready := s.b.ready[i + 1..], handedOut := Some(s.b.ready[i])), parked := false,
                         log := s.log + [Given(s.b.ready[i])])
            else t == s.(b := s.b.(ready := [], changed := false), parked := true)
  {
    SkipsToTheFirstWanted(s.b, s.b.ready, i);
    hide SkipGivenUp;
  }

  /** What `next_event()` answers with: an event still handed out is misuse, whatever else waits; then an unoffered call,
      a reflected capability and the stop raise, in this order; then the first wanted event is given. */
  lemma WhatAReaderIsTold(b: Barrier, i: nat)
    requires Numbered(b) && i <= |b.ready| && forall j :: 0 <= j < i ==> !Wanted(b, b.ready[j])
    requires i < |b.ready| ==> Wanted(b, b.ready[i])
    ensures NextEvent(b).1 ==
            if b.handedOut.Some? then Misused else if b.unoffered then UnofferedCalled
            else if b.reflected then CapabilityReflected else if b.stopped then Misused
            else if i < |b.ready| then HandsOut(b.ready[i]) else MustWait
  {
    SkipsToTheFirstWanted(b, b.ready, i);
    hide SkipGivenUp;
  }

  lemma {:induction false} SkipsToTheFirstWanted(b: Barrier, ready: seq<RelayEvent>, i: nat)
    requires forall ev :: ev in ready ==> ev.n < |b.calls|
    requires i <= |ready| && forall j :: 0 <= j < i ==> !Wanted(b, ready[j])
    requires i < |ready| ==> Wanted(b, ready[i])
    ensures SkipGivenUp(b, ready) == ready[i..]
    decreases i
  {
    if i > 0 {
      assert !Wanted(b, ready[0]);
      SkipsToTheFirstWanted(b, ready[1..], i - 1);
      assert ready[1..][i - 1..] == ready[i..];
    }
  }

  /** The accept of the handed-out event: a call starts its forward, or has its given-up result come up first; a
      result answers the call that still waits for it with the outcome there is. Any other accept changes nothing. */
  lemma AnAcceptReleasesItsEvent(s: Run, ev: RelayEvent, carries: string -> bool, t: Run)
    requires Numbered(s.b) && t == Next(s, EventAccepted(ev), carries)
    ensures s.b.handedOut != Some(ev) ==> t == s
    ensures s.b.handedOut == Some(ev) ==> t.b == s.b.(handedOut := None, calls := t.b.calls, ready := t.b.ready, forwards := t.b.forwards)
    ensures s.b.handedOut == Some(ev) && ev.CallEvent? && Wanted(s.b, ev) ==>
              && t.b.calls == s.b.calls && t.b.ready == s.b.ready
              && t.b.forwards == s.b.forwards[ev.n := s.b.calls[ev.n].params]
              && t.log == s.log + [Accepted(ev), Forwarded(ev.n)]
    ensures s.b.handedOut == Some(ev) && ev.CallEvent? && !Wanted(s.b, ev) ==>
              && t.b.calls == s.b.calls && t.b.forwards == s.b.forwards
              && t.b.ready == [ResultEvent(ev.n)] + s.b.ready
              && (ev.n !in s.b.forwards ==> t.log == s.log + [Accepted(ev)])
    ensures s.b.handedOut == Some(ev) && ev.ResultEvent? ==>
              var call := s.b.calls[ev.n];
              var replies := call.outcome.Some? && call.response.Waiting?;
              && t.b.ready == s.b.ready && t.b.forwards == s.b.forwards
              && t.b.calls == s.b.calls[ev.n := if replies then call.(response := Resolved(Reply(call.outcome.value))) else call]
              && t.log == s.log + if replies then [Accepted(ev), Replied(ev.n)] else [Accepted(ev)]
  {
    if s.b.handedOut == Some(ev) {
      assert s.b.calls[ev.n := s.b.calls[ev.n]] == s.b.calls;
      assert s.log + [Accepted(ev)] + [Forwarded(ev.n)] == s.log + [Accepted(ev), Forwarded(ev.n)];
      assert s.log + [Accepted(ev)] + [Replied(ev.n)] == s.log + [Accepted(ev), Replied(ev.n)];
    }
  }

  /** The end of a call frees its place and drops its queued call, and nothing else; its result still comes up. */
  lemma AnEndedCallFreesItsPlace(s: Run, n: nat, carries: string -> bool, t: Run)
    requires Numbered(s.b) && Distinct(s.b.pending) && Distinct(s.b.ready) && Enabled(s, CallReturns(n)) && t == Next(s, CallReturns(n), carries)
    ensures t == s.(b := s.b.(calls := s.b.calls[n := s.b.calls[n].(ended := true)], pending := t.b.pending, ready := t.b.ready))
    ensures LeavesOut(s.b.pending, n, t.b.pending) && LeavesOut(s.b.ready, CallEvent(n), t.b.ready)
  {
    RemoveLeavesOut(s.b.pending, n);
    RemoveLeavesOut(s.b.ready, CallEvent(n));
    hide Remove;
  }

  /** `left` is `s` without `x`: the others stay, in their order. */
  ghost predicate LeavesOut<T(!new)>(s: seq<T>, x: T, left: seq<T>) {
    (x !in s ==> left == s) && forall i :: 0 <= i < |s| && s[i] == x ==> left == s[..i] + s[i + 1..]
  }

  lemma {:induction false} RemoveLeavesOut<T(!new)>(s: seq<T>, x: T)
    requires Distinct(s)
    ensures LeavesOut(s, x, Remove(s, x))
  {
    if s != [] {
      RemoveLeavesOut(s[1..], x);
      if s[0] == x {
        assert x !in s[1..];
      } else {
        assert s == [s[0]] + s[1..];
        forall i | 0 <= i < |s| && s[i] == x ensures Remove(s, x) == s[..i] + s[i + 1..] {
          assert s[1..][i - 1] == x && s[1..][..i - 1] == s[1..i] && s[1..][i..] == s[i + 1..];
        }
      }
    }
  }

  /** The CLI's cancel of a pending request id frees the place of that call, drops its queued call and answers it
      with nothing if it still waits; the cancel of any other id changes nothing. */
  lemma ACancelGivesUpItsCall(s: Run, id: RequestId, carries: string -> bool, t: Run)
    requires Numbered(s.b) && Distinct(s.b.pending) && Distinct(s.b.ready) && t == Next(s, CliCancels(id), carries)
    ensures (forall n :: n in s.b.pending ==> s.b.calls[n].requestId != id) ==> t == s
    ensures forall n :: n in s.b.pending && OnlyOneWith(s.b, id, n) ==>
              var call := s.b.calls[n];
              && t == s.(b := s.b.(calls := t.b.calls, pending := t.b.pending, ready := t.b.ready))
              && t.b.calls == s.b.calls[n := call.(cancelledByCli := true,
                                                   response := if call.response.Waiting? then Resolved(Unanswered) else call.response)]
              && LeavesOut(s.b.pending, n, t.b.pending) && LeavesOut(s.b.ready, CallEvent(n), t.b.ready)
  {
    var found := PendingWith(s.b, id);
    if found.Some? {
      RemoveLeavesOut(s.b.pending, found.value);
      RemoveLeavesOut(s.b.ready, CallEvent(found.value));
    }
    hide Remove, PendingWith, LeavesOut;
  }

  /** Call `n` alone is pending with the request id. */
  predicate OnlyOneWith(b: Barrier, id: RequestId, n: nat)
    requires Numbered(b)
  {
    forall m :: m in b.pending ==> (b.calls[m].requestId == id <==> m == n)
  }

  /** The stop refuses exactly the pending calls that still wait, and empties the queue. */
  lemma TheStopRefusesWhatWaits(s: Run, carries: string -> bool, t: Run)
    requires Numbered(s.b) && t == Next(s, BarrierStops, carries)
    ensures t == s.(b := s.b.(calls := t.b.calls, ready := [], handedOut := None, stopped := true, changed := true),
                    log := s.log + [Stopped])
    ensures |t.b.calls| == |s.b.calls|
    ensures forall n :: 0 <= n < |s.b.calls| ==>
              t.b.calls[n] == if n in s.b.pending && s.b.calls[n].response.Waiting?
                              then s.b.calls[n].(response := Resolved(Refusal)) else s.b.calls[n]
  {
  }

  /** The cancellation of a call's task leaves a waiting call without an answer; the report of a tool that was not
      offered, or of the capability in another answer, is remembered and wakes the reader. */
  lemma TheReportsAreRemembered(s: Run, step: Step, carries: string -> bool, t: Run)
    requires Numbered(s.b) && Enabled(s, step) && t == Next(s, step, carries)
    requires step.CallTaskCancelled? || step.UnofferedToolCalled? || step.AnswerReflected? || step.ReaderLeaves?
    ensures t == s.(b := s.b.(calls := t.b.calls, unoffered := s.b.unoffered || step.UnofferedToolCalled?,
                              reflected := s.b.reflected || step.AnswerReflected?,
                              changed := s.b.changed || step.UnofferedToolCalled? || step.AnswerReflected?),
                    parked := s.parked && !step.ReaderLeaves?)
    ensures !step.CallTaskCancelled? ==> t.b.calls == s.b.calls
    ensures step.CallTaskCancelled? ==>
              var call := s.b.calls[step.n];
              t.b.calls == s.b.calls[step.n := if call.response.Waiting? then call.(response := TaskCancelled) else call]
  {
    if step.CallTaskCancelled? {
      assert s.b.calls[step.n := s.b.calls[step.n]] == s.b.calls;
    }
  }

  // ---------------------------------------------------------------- every run

  /** How the forward of each call ended. */
  ghost function Endings(steps: seq<Step>, carries: string -> bool): map<nat, Ending> {
    if steps == [] then map[]
    else
      var before, step := steps[..|steps| - 1], steps[|steps| - 1];
      if step.ForwardEnds? && Enabled(After(before, carries), step)
      then Endings(before, carries)[step.n := step.ending] else Endings(before, carries)
  }

  /** A call's forward runs, or ended, and only what it ended with is the outcome of the call; a result that comes
      up for a call that was never forwarded has none. */
  ghost predicate Traced(s: Run, endings: map<nat, Ending>, carries: string -> bool) {
    && (forall n: nat :: n in endings ==> n < |s.b.calls| && n !in s.b.forwards && Forwarded(n) in s.log)
    && (forall n: nat :: n in s.b.forwards ==> Forwarded(n) in s.log)
    && (forall n: nat :: Forwarded(n) in s.log ==> n in s.b.forwards || n in endings)
    && (forall n: nat :: n < |s.b.calls| ==> OutcomeFits(s.b.calls[n].outcome, n, endings, carries))
    && (forall n: nat :: HasResult(s, n) ==> n < |s.b.calls| && (Forwarded(n) !in s.log || s.b.calls[n].outcome.Some?))
  }

  ghost predicate OutcomeFits(outcome: Option<Outcome>, n: nat, endings: map<nat, Ending>, carries: string -> bool) {
    if n in endings then Leaves(endings[n], carries, outcome) else outcome == None
  }

  /** The result of call `n` is queued or was handed out. */
  ghost predicate HasResult(s: Run, n: nat) {
    ResultEvent(n) in s.b.ready || Given(ResultEvent(n)) in s.log
  }

  /** The forward of call `n` ended and left `left`. */
  ghost predicate OneEnded(s: Run, t: Run, n: nat, left: Option<Outcome>) {
    && n < |s.b.calls| == |t.b.calls| && t.b.calls[n].outcome == left
    && (forall m: nat :: m < |s.b.calls| && m != n ==> t.b.calls[m] == s.b.calls[m])
    && (forall m: nat :: m in t.b.forwards <==> m in s.b.forwards && m != n)
    && t.log == s.log
    && t.b.ready == if left.Some? then s.b.ready + [ResultEvent(n)] else s.b.ready
  }

  lemma OneEndedTraces(s: Run, t: Run, n: nat, left: Option<Outcome>, ending: Ending, endings: map<nat, Ending>,
                       carries: string -> bool)
    requires Traced(s, endings, carries) && n in s.b.forwards && OneEnded(s, t, n, left)
    requires Leaves(ending, carries, left) && !HasResult(s, n)
    ensures Traced(t, endings[n := ending], carries)
  {
    hide Leaves;
    forall m: nat | HasResult(t, m)
      ensures m < |t.b.calls| && (Forwarded(m) !in t.log || t.b.calls[m].outcome.Some?) {
      if m != n {
        assert HasResult(s, m);
      }
    }
  }

  lemma EndingTraces(s: Run, n: nat, ending: Ending, endings: map<nat, Ending>, carries: string -> bool)
    requires Numbered(s.b) && !HasResult(s, n) && Traced(s, endings, carries) && n in s.b.forwards
    ensures Traced(Next(s, ForwardEnds(n, ending), carries), endings[n := ending], carries)
  {
    var t := Next(s, ForwardEnds(n, ending), carries);
    AnEndedForwardQueuesItsOutcome(s, n, ending, carries, t);
    SomethingIsLeft(ending, carries);
    var left :| Leaves(ending, carries, left);
    hide Next, Leaves, Traced, HasResult;
    NotYetEnded(s, n, endings, carries);
    assert OneEnded(s, t, n, left);
    OneEndedTraces(s, t, n, left, ending, endings, carries);
  }

  lemma NotYetEnded(s: Run, n: nat, endings: map<nat, Ending>, carries: string -> bool)
    requires Traced(s, endings, carries) && Numbered(s.b) && n in s.b.forwards
    ensures s.b.calls[n].outcome == None
  {
    hide Leaves;
    assert OutcomeFits(s.b.calls[n].outcome, n, endings, carries);
  }

  lemma SomethingIsLeft(ending: Ending, carries: string -> bool)
    ensures exists left: Option<Outcome> :: Leaves(ending, carries, left)
  {
    assert Leaves(ending, carries, None) || Leaves(ending, carries, Some(Outcome(CALL_FAILED_TEXT, true)))
        || (ending.ForwardReturned? && Leaves(ending, carries, Some(ending.outcome)));
  }

  /** A step that starts and ends no forward and brings up no result. */
  ghost predicate ForwardsNothing(s: Run, t: Run) {
    && |s.b.calls| <= |t.b.calls|
    && (forall n: nat :: n < |t.b.calls| ==>
          t.b.calls[n].outcome == if n < |s.b.calls| then s.b.calls[n].outcome else None)
    && t.b.forwards.Keys == s.b.forwards.Keys
    && (forall n: nat :: Forwarded(n) in t.log <==> Forwarded(n) in s.log)
    && (forall n: nat :: HasResult(t, n) ==> HasResult(s, n))
  }

  lemma ForwardsNothingKeeps(s: Run, t: Run, endings: map<nat, Ending>, carries: string -> bool)
    requires Traced(s, endings, carries) && ForwardsNothing(s, t)
    ensures Traced(t, endings, carries)
  {
    hide Leaves;
    assert forall n: nat :: |s.b.calls| <= n < |t.b.calls| ==> n !in endings;
  }

  lemma AskingForwardsNothing(s: Run)
    requires Numbered(s.b)
    ensures ForwardsNothing(s, Asks(s))
  {
    AskingReleasesNothing(s.b);
    var (b, asked) := NextEvent(s.b);
    assert forall ev :: ev in b.ready ==> ev in s.b.ready;
    assert asked.HandsOut? ==> asked.ev in s.b.ready;
    hide NextEvent;
  }

  lemma OthersForwardNothing(s: Run, step: Step, carries: string -> bool)
    requires Inv(s) && Enabled(s, step) && !step.ForwardEnds? && !step.EventAccepted?
    ensures ForwardsNothing(s, Next(s, step, carries))
  {
    hide LogSafe, LogKept, QueueKept, CallsKept, NoResultLost, ReaderKept, Cancel, Remove;
    match step {
      case ReaderAsks => AskingForwardsNothing(s);
      case ReaderWakes => AskingForwardsNothing(s);
      case CliCancels(id) => CancelTold(s.b, id);
      case CallReturns(n) =>
      case _ =>
    }
  }

  lemma CancelTold(b: Barrier, id: RequestId)
    requires Numbered(b)
    ensures var c := Cancel(b, id);
            && |c.calls| == |b.calls| && c.forwards == b.forwards
            && (forall n: nat :: n < |b.calls| ==> c.calls[n].outcome == b.calls[n].outcome)
            && forall ev :: ev in c.ready ==> ev in b.ready
  {
    hide PendingWith;
  }

  lemma AcceptTraces(s: Run, ev: RelayEvent, endings: map<nat, Ending>, carries: string -> bool)
    requires Numbered(s.b) && Traced(s, endings, carries)
    requires s.b.handedOut == Some(ev) && ev.CallEvent? ==>
               ev.n !in s.b.forwards && Forwarded(ev.n) !in s.log && !HasResult(s, ev.n)
    ensures Traced(Next(s, EventAccepted(ev), carries), endings, carries)
  {
    var t := Next(s, EventAccepted(ev), carries);
    hide Traced;
    if s.b.handedOut != Some(ev) || ev.ResultEvent? {
      ForwardsNothingKeeps(s, t, endings, carries);
    } else {
      AnAcceptedCallTold(s, ev.n, carries);
      hide Next;
      ForwardedTraces(s, t, ev.n, endings, carries);
    }
  }

  /** A call accepted for the first time: it is forwarded, or its given-up result comes up next. */
  ghost predicate CallTaken(s: Run, t: Run, n: nat) {
    && t.b.calls == s.b.calls && n < |s.b.calls|
    && (if s.b.calls[n].GivenUp()
        then && t.b.ready == [ResultEvent(n)] + s.b.ready && t.b.forwards.Keys == s.b.forwards.Keys
             && t.log == s.log + [Accepted(CallEvent(n))]
        else && t.b.ready == s.b.ready && t.b.forwards.Keys == s.b.forwards.Keys + {n}
             && t.log == s.log + [Accepted(CallEvent(n))] + [Forwarded(n)])
  }

  lemma AnAcceptedCallTold(s: Run, n: nat, carries: string -> bool)
    requires Numbered(s.b) && s.b.handedOut == Some(CallEvent(n)) && n !in s.b.forwards
    ensures CallTaken(s, Next(s, EventAccepted(CallEvent(n)), carries), n)
  {
  }

  lemma ForwardedTraces(s: Run, t: Run, n: nat, endings: map<nat, Ending>, carries: string -> bool)
    requires Traced(s, endings, carries) && CallTaken(s, t, n) && Forwarded(n) !in s.log && !HasResult(s, n)
    ensures Traced(t, endings, carries)
  {
    hide Leaves;
    forall m: nat | HasResult(t, m)
      ensures m < |t.b.calls| && (Forwarded(m) !in t.log || t.b.calls[m].outcome.Some?) {
      if m != n {
        assert HasResult(s, m);
      }
    }
  }

  lemma {:induction false} RunsAreTraced(steps: seq<Step>, carries: string -> bool)
    ensures Traced(After(steps, carries), Endings(steps, carries), carries)
  {
    hide Inv, Next, Leaves;
    if steps != [] {
      var before, step := steps[..|steps| - 1], steps[|steps| - 1];
      assert steps == before + [step];
      RunsAreTraced(before, carries);
      Taken(before, step, carries);
      var s, endings := After(before, carries), Endings(before, carries);
      if Enabled(s, step) {
        StepTraces(s, step, endings, carries);
      }
    }
  }

  lemma RunningHasNoResult(s: Run, n: nat)
    requires QueueKept(s) && n in s.b.forwards
    ensures !HasResult(s, n)
  {
  }

  lemma HandedOutIsNew(s: Run, ev: RelayEvent)
    requires QueueKept(s) && LogKept(s)
    ensures s.b.handedOut == Some(ev) && ev.CallEvent? ==>
              ev.n !in s.b.forwards && Forwarded(ev.n) !in s.log && !HasResult(s, ev.n)
  {
  }

  lemma StepTraces(s: Run, step: Step, endings: map<nat, Ending>, carries: string -> bool)
    requires Inv(s) && Enabled(s, step) && Traced(s, endings, carries)
    ensures Traced(Next(s, step, carries), if step.ForwardEnds? then endings[step.n := step.ending] else endings, carries)
  {
    assert Numbered(s.b);
    hide Next, Traced;
    match step {
      case ForwardEnds(n, ending) =>
        RunningHasNoResult(s, n);
        EndingTraces(s, n, ending, endings, carries);
      case EventAccepted(ev) =>
        HandedOutIsNew(s, ev);
        AcceptTraces(s, ev, endings, carries);
      case _ =>
        OthersForwardNothing(s, step, carries);
        ForwardsNothingKeeps(s, Next(s, step, carries), endings, carries);
    }
  }

  lemma {:induction false} EndingsStand(steps: seq<Step>, later: seq<Step>, carries: string -> bool, n: nat)
    requires n in Endings(steps, carries)
    ensures n in Endings(steps + later, carries) && Endings(steps + later, carries)[n] == Endings(steps, carries)[n]
    decreases |later|
  {
    hide Inv, Next, After, Traced, Enabled, Endings;
    if later == [] {
      assert steps + later == steps;
    } else {
      var fewer, step := later[..|later| - 1], later[|later| - 1];
      assert steps + later == (steps + fewer) + [step];
      EndingsStand(steps, fewer, carries, n);
      RunsAreTraced(steps + fewer, carries);
      EndedForwardsDoNotEnd(After(steps + fewer, carries), step, Endings(steps + fewer, carries), carries, n);
      EndingsUnfold(steps + fewer, step, carries);
    }
  }

  lemma EndingsUnfold(before: seq<Step>, step: Step, carries: string -> bool)
    ensures Endings(before + [step], carries) ==
            if step.ForwardEnds? && Enabled(After(before, carries), step)
            then Endings(before, carries)[step.n := step.ending] else Endings(before, carries)
  {
    hide After, Enabled;
    assert (before + [step])[..|before|] == before;
  }

  lemma EndedForwardsDoNotEnd(s: Run, step: Step, endings: map<nat, Ending>, carries: string -> bool, n: nat)
    requires Traced(s, endings, carries) && n in endings
    ensures step.ForwardEnds? && Enabled(s, step) ==> step.n != n
  {
  }

  lemma AStepForwardsNoResult(s: Run, step: Step, carries: string -> bool, n: nat)
    requires Inv(s) && Enabled(s, step) && Given(ResultEvent(n)) in s.log
    ensures var t := Next(s, step, carries);
            s.log <= t.log && (Forwarded(n) in t.log <==> Forwarded(n) in s.log)
  {
    hide LogSafe, CallsKept, NoResultLost, ReaderKept, Complete, Cancel, Remove, NextEvent;
    if step.EventAccepted? {
      hide Accept;
      assert step.ev == CallEvent(n) ==> s.b.handedOut != Some(step.ev);
    }
  }

  lemma {:induction false} NothingIsForwardedAfterItsResult(steps: seq<Step>, later: seq<Step>, carries: string -> bool, n: nat)
    requires Given(ResultEvent(n)) in After(steps, carries).log
    ensures After(steps, carries).log <= After(steps + later, carries).log
    ensures Forwarded(n) in After(steps + later, carries).log <==> Forwarded(n) in After(steps, carries).log
    decreases |later|
  {
    hide Inv, Next;
    if later == [] {
      assert steps + later == steps;
    } else {
      var fewer, step := later[..|later| - 1], later[|later| - 1];
      assert steps + later == (steps + fewer) + [step];
      NothingIsForwardedAfterItsResult(steps, fewer, carries, n);
      Taken(steps + fewer, step, carries);
      var t := After(steps + fewer, carries);
      if Enabled(t, step) {
        AStepForwardsNoResult(t, step, carries, n);
      }
    }
  }

  lemma RepliesCarryOutcomes(s: Run)
    requires Inv(s)
    ensures forall n: nat :: n < |s.b.calls| && ReplyHeld(s.b.calls[n]) ==>
              && s.b.calls[n].response.answer == Reply(s.b.calls[n].Content()) && s.b.calls[n].outcome.Some?
  {
    hide LogSafe, LogKept, QueueKept, NoResultLost, ReaderKept;
  }

  lemma NoMoreCallsAreLost(b: Barrier, c: Barrier)
    requires CallsEvolve(b, c)
    ensures |b.calls| <= |c.calls|
  {
  }

  lemma OneOutcomeIsLeft(endings: map<nat, Ending>, carries: string -> bool)
    ensures forall n: nat, a, b :: n in endings && Leaves(endings[n], carries, a) && Leaves(endings[n], carries, b) ==> a == b
  {
  }

  /** A result that was handed out: what its forward left, or the given-up text of a call that was never forwarded. */
  lemma ResultsTell(s: Run, endings: map<nat, Ending>, carries: string -> bool, n: nat)
    requires Traced(s, endings, carries) && Given(ResultEvent(n)) in s.log && n !in s.b.forwards
    ensures n < |s.b.calls|
    ensures Forwarded(n) in s.log <==> n in endings
    ensures n in endings ==> s.b.calls[n].outcome.Some? && Leaves(endings[n], carries, Some(s.b.calls[n].Content()))
    ensures n !in endings ==> s.b.calls[n].outcome.None? && s.b.calls[n].Content() == Outcome(CALL_GIVEN_UP_TEXT, true)
  {
    hide Leaves;
    assert HasResult(s, n);
    assert OutcomeFits(s.b.calls[n].outcome, n, endings, carries);
  }

  lemma GivenResultsDoNotRun(s: Run, n: nat)
    requires Inv(s) && Given(ResultEvent(n)) in s.log
    ensures n !in s.b.forwards
  {
    hide LogSafe, LogKept, CallsKept, NoResultLost, ReaderKept;
  }

  /** Whatever the interleaving: the result handed out for a call that was forwarded is exactly what its own
      forward ended with, and that of a call given up before is the given-up text; no later step changes it, and a
      reply carries that content and no other. */
  lemma TheResultIsWhatTheForwardEndedWith(steps: seq<Step>, later: seq<Step>, carries: string -> bool, n: nat)
    requires Given(ResultEvent(n)) in After(steps, carries).log
    ensures var s, t := After(steps, carries), After(steps + later, carries);
            && n < |s.b.calls| <= |t.b.calls|
            && t.b.calls[n].Content() == s.b.calls[n].Content()
            && (Forwarded(n) in s.log ==>
                 && n in Endings(steps, carries)
                 && Leaves(Endings(steps, carries)[n], carries, Some(t.b.calls[n].Content())))
            && (Forwarded(n) !in s.log ==> t.b.calls[n].Content() == Outcome(CALL_GIVEN_UP_TEXT, true))
            && (ReplyHeld(t.b.calls[n]) ==>
                 Forwarded(n) in s.log && t.b.calls[n].response.answer == Reply(s.b.calls[n].Content()))
  {
    hide Inv, After, Endings, CallsEvolve, Traced, Leaves, CallsKept;
    RunsAreTraced(steps, carries);
    RunsAreTraced(steps + later, carries);
    CallsEvolveThrough(steps, later, carries);
    NothingIsForwardedAfterItsResult(steps, later, carries, n);
    if n in Endings(steps, carries) {
      EndingsStand(steps, later, carries, n);
    }
    var s, t := After(steps, carries), After(steps + later, carries);
    RepliesCarryOutcomes(s);
    RepliesCarryOutcomes(t);
    GivenResultsDoNotRun(s, n);
    GivenResultsDoNotRun(t, n);
    ResultsTell(s, Endings(steps, carries), carries, n);
    ResultsTell(t, Endings(steps + later, carries), carries, n);
    NoMoreCallsAreLost(s.b, t.b);
    OneOutcomeIsLeft(Endings(steps, carries), carries);
  }

  /** What a call returns that resumes with its answer: a tool result exactly when its reply was released and it was
      not cancelled, and then the outcome its own forward ended with. */
  lemma ACallReturnsWhatItsForwardEndedWith(steps: seq<Step>, carries: string -> bool, n: nat, late: bool)
    requires n < |After(steps, carries).b.calls| && !After(steps, carries).b.calls[n].response.Waiting?
    ensures var s := After(steps, carries);
            var returned := Returned(s.b.calls[n], late);
            && (returned.Some? && returned.value.Reply? <==> Replied(n) in s.log && !late && !s.b.calls[n].cancelledByCli)
            && (returned.Some? && returned.value.Reply? ==>
                 n in Endings(steps, carries) && Leaves(Endings(steps, carries)[n], carries, Some(returned.value.outcome)))
            && (returned == Some(Unanswered) <==>
                 !late && (s.b.calls[n].response == Resolved(Unanswered)
                           || (s.b.calls[n].cancelledByCli && !s.b.calls[n].response.TaskCancelled?)))
            && (returned == Some(Refusal) <==>
                 !late && s.b.calls[n].response == Resolved(Refusal) && !s.b.calls[n].cancelledByCli)
  {
    RunsAreTraced(steps, carries);
    var s := After(steps, carries);
    assert CallsKept(s);
    hide Inv, After, Endings, Leaves;
    assert OutcomeFits(s.b.calls[n].outcome, n, Endings(steps, carries), carries);
  }

  /** A call is refused by its answer only at the stop, and only if it still waited then. */
  lemma OnlyTheStopRefuses(s: Run, step: Step, carries: string -> bool, t: Run, n: nat)
    requires Numbered(s.b) && Enabled(s, step) && t == Next(s, step, carries) && n < |s.b.calls| <= |t.b.calls|
    requires s.b.calls[n].response != Resolved(Refusal) && t.b.calls[n].response == Resolved(Refusal)
    ensures step == BarrierStops && s.b.calls[n].response.Waiting? && n in s.b.pending
  {
    hide Complete, Cancel, Remove, NextEvent;
    match step {
      case ForwardEnds(m, ending) => CompletingTold(s.b, m, ending, carries);
      case CliCancels(id) => CancelRefusesNothing(s.b, id, n);
      case ReaderAsks => AskingReleasesNothing(s.b);
      case ReaderWakes => AskingReleasesNothing(s.b);
      case _ =>
    }
  }

  lemma CancelRefusesNothing(b: Barrier, id: RequestId, n: nat)
    requires Numbered(b) && n < |b.calls|
    ensures |Cancel(b, id).calls| == |b.calls|
    ensures Cancel(b, id).calls[n].response in {b.calls[n].response, Resolved(Unanswered)}
  {
    hide PendingWith, Remove;
  }
}
