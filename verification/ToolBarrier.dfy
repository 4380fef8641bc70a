/** The tool-call barrier of a run (packages/service/src/agent_runtime_service/tool_relay.py): the
    state its await-free regions step through, and what every interleaving of them keeps. */
module ToolBarrier {
  import opened Wire

  type RequestId = string
  type Params = string

  const MAX_PENDING_TOOL_CALLS: nat := 3
  const CALL_GIVEN_UP_TEXT := "The tool call ended before it ran."
  const CALL_FAILED_TEXT := "The tool call failed; it may have run."

  datatype Outcome = Outcome(content: string, isError: bool)

  const GIVEN_UP := Outcome(CALL_GIVEN_UP_TEXT, true)
  const FORWARD_FAILED := Outcome(CALL_FAILED_TEXT, true)

  datatype Answer = Refusal | Unanswered | Reply(outcome: Outcome)

  /** The one future a call awaits. */
  datatype Response = Waiting | Resolved(answer: Answer) | TaskCancelled

  /** A pending call: `ended` once its `call()` returned. */
  datatype Call = Call(
    requestId: RequestId, params: Params,
    response: Response, cancelledByCli: bool, outcome: Option<Outcome>, ended: bool)
  {
    predicate GivenUp() {
      cancelledByCli || response.TaskCancelled? || response == Resolved(Unanswered)
    }

    /** The content of the call's one result event. */
    function Content(): Outcome {
      match outcome case Some(o) => o case None => GIVEN_UP
    }
  }

  /** Event `n` belongs to the call with the minted id `call-<n + 1>`. */
  datatype RelayEvent = CallEvent(n: nat) | ResultEvent(n: nat)

  datatype Barrier = Barrier(
    calls: seq<Call>, pending: seq<nat>, ready: seq<RelayEvent>, handedOut: Option<RelayEvent>,
    forwards: map<nat, Params>, changed: bool, stopped: bool, unoffered: bool, reflected: bool)

  const NEW_BARRIER := Barrier([], [], [], None, map[], false, false, false, false)

  predicate Numbered(b: Barrier) {
    && (forall n: nat :: n in b.pending ==> n < |b.calls|)
    && (forall ev: RelayEvent :: ev in b.ready ==> ev.n < |b.calls|)
    && (b.handedOut.Some? ==> b.handedOut.value.n < |b.calls|)
    && (forall n: nat :: n in b.forwards ==> n < |b.calls|)
  }

  // ---------------------------------------------------------------- the operations

  function Remove<T(==,!new)>(s: seq<T>, x: T): (r: seq<T>)
    ensures forall y :: y in r <==> y in s && y != x
    ensures |r| <= |s| && (x in s ==> |r| < |s|)
  {
    if s == [] then []
    else if s[0] == x then Remove(s[1..], x)
    else [s[0]] + Remove(s[1..], x)
  }

  function Resolve(b: Barrier, n: nat, answer: Answer): Barrier
    requires n < |b.calls|
  {
    if b.calls[n].response.Waiting? then b.(calls := b.calls[n := b.calls[n].(response := Resolved(answer))])
    else b
  }

  function PendingWith(b: Barrier, id: RequestId): (found: Option<nat>)
    requires Numbered(b)
    ensures found.Some? ==> found.value in b.pending && b.calls[found.value].requestId == id
    ensures found.None? ==> forall n :: n in b.pending ==> b.calls[n].requestId != id
    decreases |b.pending|
  {
    if b.pending == [] then None
    else
      assert b.pending[0] in b.pending && forall n: nat :: n in b.pending[1..] ==> n in b.pending;
      if b.calls[b.pending[0]].requestId == id then Some(b.pending[0])
      else PendingWith(b.(pending := b.pending[1..]), id)
  }

  predicate Admits(b: Barrier, id: RequestId)
    requires Numbered(b)
  {
    !b.stopped && |b.pending| < MAX_PENDING_TOOL_CALLS && PendingWith(b, id).None?
  }

  function Admit(b: Barrier, id: RequestId, params: Params): Barrier {
    var n := |b.calls|;
    b.(calls := b.calls + [Call(id, params, Waiting, false, None, false)],
       pending := b.pending + [n],
       ready := b.ready + [CallEvent(n)],
       changed := true)
  }

  /** The cancellation of the task that awaits the response of call `n`. */
  function CancelTask(b: Barrier, n: nat): Barrier
    requires n < |b.calls|
  {
    if b.calls[n].response.Waiting? then b.(calls := b.calls[n := b.calls[n].(response := TaskCancelled)])
    else b
  }

  /** `call()` of call `n` resumes and returns. */
  function End(b: Barrier, n: nat): Barrier
    requires n < |b.calls|
  {
    b.(calls := b.calls[n := b.calls[n].(ended := true)],
       pending := Remove(b.pending, n),
       ready := Remove(b.ready, CallEvent(n)))
  }

  /** What `call()` of a resolved call returns; None when its task's cancellation leaves it: one that cancelled
      the future, or one that came `late`, after the answer and before the task resumed. */
  function Returned(c: Call, late: bool): Option<Answer>
    requires !c.response.Waiting?
  {
    if c.response.TaskCancelled? || late then None
    else if c.cancelledByCli then Some(Unanswered)
    else Some(c.response.answer)
  }

  /** The CLI's cancel of a request id. */
  function Cancel(b: Barrier, id: RequestId): Barrier
    requires Numbered(b)
  {
    match PendingWith(b, id)
    case None => b
    case Some(n) =>
      Resolve(b.(calls := b.calls[n := b.calls[n].(cancelledByCli := true)],
                 pending := Remove(b.pending, n),
                 ready := Remove(b.ready, CallEvent(n))),
              n, Unanswered)
  }

  predicate Waits(b: Barrier, ev: RelayEvent)
    requires ev.n < |b.calls|
  {
    ev.ResultEvent? || !b.calls[ev.n].GivenUp()
  }

  /** The queue without the given-up calls at its head. */
  function SkipGivenUp(b: Barrier, ready: seq<RelayEvent>): (r: seq<RelayEvent>)
    requires forall ev :: ev in ready ==> ev.n < |b.calls|
    ensures forall ev :: ev in r ==> ev in ready
    ensures r != [] ==> Waits(b, r[0])
    ensures r == [] ==> forall ev :: ev in ready ==> !Waits(b, ev)
  {
    if ready == [] || Waits(b, ready[0]) then ready else SkipGivenUp(b, ready[1..])
  }

  datatype Asked = Misused | UnofferedCalled | CapabilityReflected | HandsOut(ev: RelayEvent) | MustWait

  /** One pass of `next_event()`, up to its return, its raise or its wait. */
  function NextEvent(b: Barrier): (Barrier, Asked)
    requires Numbered(b)
  {
    if b.handedOut.Some? then (b, Misused)
    else if b.unoffered then (b, UnofferedCalled)
    else if b.reflected then (b, CapabilityReflected)
    else if b.stopped then (b, Misused)
    else
      var ready := SkipGivenUp(b, b.ready);
      if ready == [] then (b.(ready := [], changed := false), MustWait)
      else (b.(ready := ready[1..], handedOut := Some(ready[0])), HandsOut(ready[0]))
  }

  predicate HasReadyEvent(b: Barrier)
    requires Numbered(b)
  {
    b.unoffered || b.reflected || exists ev :: ev in b.ready && Waits(b, ev)
  }

  predicate HasRunningForward(b: Barrier) {
    b.forwards != map[]
  }

  /** `accept` of the handed-out event. */
  function Accept(b: Barrier): Barrier
    requires Numbered(b) && b.handedOut.Some?
  {
    var ev := b.handedOut.value;
    var b := b.(handedOut := None);
    var call := b.calls[ev.n];
    if ev.ResultEvent? then
      if call.outcome.Some? then Resolve(b, ev.n, Reply(call.outcome.value)) else b
    else if call.GivenUp() then b.(ready := [ResultEvent(ev.n)] + b.ready)
    else b.(forwards := b.forwards[ev.n := call.params])
  }

  function RefuseAll(calls: seq<Call>, pending: seq<nat>): (r: seq<Call>)
    requires forall n :: n in pending ==> n < |calls|
    ensures |r| == |calls|
    ensures forall n :: 0 <= n < |calls| ==>
              r[n] == if n in pending && calls[n].response.Waiting?
                      then calls[n].(response := Resolved(Refusal)) else calls[n]
  {
    seq(|calls|, n requires 0 <= n < |calls| =>
      if n in pending && calls[n].response.Waiting? then calls[n].(response := Resolved(Refusal)) else calls[n])
  }

  function Stop(b: Barrier): Barrier
    requires Numbered(b)
  {
    b.(calls := RefuseAll(b.calls, b.pending), ready := [], handedOut := None, stopped := true, changed := true)
  }

  /** How a forward's task ended. */
  datatype Ending = ForwardCancelled | ForwardFailed | ForwardReturned(outcome: Outcome)

  function OutcomeOf(ending: Ending): Outcome
    requires !ending.ForwardCancelled?
  {
    if ending.ForwardFailed? then FORWARD_FAILED else ending.outcome
  }

  /** The completion of the forward of call `n`; `carries` says which text holds the capability. */
  function Complete(b: Barrier, n: nat, ending: Ending, carries: string -> bool): Barrier
    requires n < |b.calls|
  {
    var b := b.(forwards := b.forwards - {n});
    if ending.ForwardCancelled? then Resolve(b, n, Unanswered)
    else Queued(b, n, OutcomeOf(ending), carries)
  }

  /** The outcome of call `n` becomes its result event, unless its text carries the capability. */
  function Queued(b: Barrier, n: nat, outcome: Outcome, carries: string -> bool): Barrier
    requires n < |b.calls|
  {
    if carries(outcome.content) then Resolve(b.(reflected := true, changed := true), n, Unanswered)
    else b.(calls := b.calls[n := b.calls[n].(outcome := Some(outcome))],
            ready := b.ready + [ResultEvent(n)],
            changed := true)
  }

  // ---------------------------------------------------------------- every interleaving

  /** What the barrier did, in order. */
  datatype Entry =
    | Given(ev: RelayEvent)       // handed out to the one reader
    | Accepted(ev: RelayEvent)    // taken by `accept`
    | Forwarded(n: nat)      // the call started upstream
    | Replied(n: nat)        // the call's response resolved with its tool result
    | Stopped

  /** A run of the barrier: its state, whether its one reader is parked in `next_event()`, the log,
      and the calls whose forward was cancelled. */
  datatype Run = Run(b: Barrier, parked: bool, log: seq<Entry>, cancelledForwards: set<nat>)

  const START := Run(NEW_BARRIER, false, [], {})

  datatype Step =
    | CallArrives(id: RequestId, params: Params)
    | CallTaskCancelled(n: nat)
    | CallReturns(n: nat)
    | CliCancels(id: RequestId)
    | UnofferedToolCalled
    | AnswerReflected
    | ReaderAsks
    | ReaderWakes
    | ReaderLeaves
    | EventAccepted(ev: RelayEvent)
    | BarrierStops
    | ForwardEnds(n: nat, ending: Ending)

  /** Whether the step can happen: the reader is one, a call returns once and only after its answer,
      and only a running forward ends. */
  predicate Enabled(s: Run, step: Step) {
    match step
    case CallTaskCancelled(n) => n < |s.b.calls| && !s.b.calls[n].ended
    case CallReturns(n) => n < |s.b.calls| && !s.b.calls[n].ended && !s.b.calls[n].response.Waiting?
    case ReaderAsks => !s.parked
    case ReaderWakes => s.parked && s.b.changed
    case ReaderLeaves => s.parked
    case ForwardEnds(n, _) => n in s.b.forwards
    case _ => true
  }

  function Asks(s: Run): Run
    requires Numbered(s.b)
  {
    var (b, asked) := NextEvent(s.b);
    s.(b := b, parked := asked.MustWait?, log := if asked.HandsOut? then s.log + [Given(asked.ev)] else s.log)
  }

  /** An accept of any event but the handed-out one raises and changes nothing. */
  function Accepts(s: Run, ev: RelayEvent): Run
    requires Numbered(s.b)
  {
    if s.b.handedOut != Some(ev) then s
    else
      var b := Accept(s.b);
      var log := s.log + [Accepted(ev)];
      s.(b := b,
         log := if ev.CallEvent? && ev.n in b.forwards then log + [Forwarded(ev.n)]
                else if ev.ResultEvent? && b.calls[ev.n].response != s.b.calls[ev.n].response
                then log + [Replied(ev.n)]
                else log)
  }

  function Next(s: Run, step: Step, carries: string -> bool): Run
    requires Numbered(s.b) && Enabled(s, step)
  {
    match step
    case CallArrives(id, params) => if Admits(s.b, id) then s.(b := Admit(s.b, id, params)) else s
    case CallTaskCancelled(n) => s.(b := CancelTask(s.b, n))
    case CallReturns(n) => s.(b := End(s.b, n))
    case CliCancels(id) => s.(b := Cancel(s.b, id))
    case UnofferedToolCalled => s.(b := s.b.(unoffered := true, changed := true))
    case AnswerReflected => s.(b := s.b.(reflected := true, changed := true))
    case ReaderAsks => Asks(s)
    case ReaderWakes => Asks(s)
    case ReaderLeaves => s.(parked := false)
    case EventAccepted(ev) => Accepts(s, ev)
    case BarrierStops => s.(b := Stop(s.b), log := s.log + [Stopped])
    case ForwardEnds(n, ending) =>
      s.(b := Complete(s.b, n, ending, carries),
         cancelledForwards := if ending.ForwardCancelled? then s.cancelledForwards + {n}
                              else s.cancelledForwards)
  }

  // ---------------------------------------------------------------- the invariant

  predicate Distinct<T(==)>(s: seq<T>) {
    forall i, j :: 0 <= i < j < |s| ==> s[i] != s[j]
  }

  /** What may be logged after `before`: the rules of the hand-out and accept protocol. */
  ghost predicate MayLog(before: seq<Entry>, e: Entry) {
    match e
    case Given(ev) =>
      && e !in before && Stopped !in before
      && (forall given :: Given(given) in before ==> Accepted(given) in before)
      && (ev.ResultEvent? ==> Accepted(CallEvent(ev.n)) in before)
    case Accepted(ev) => e !in before && Given(ev) in before && Stopped !in before
    case Forwarded(n) => e !in before && before != [] && before[|before| - 1] == Accepted(CallEvent(n))
    case Replied(n) => e !in before && before != [] && before[|before| - 1] == Accepted(ResultEvent(n))
    case Stopped => true
  }

  ghost predicate LogSafe(log: seq<Entry>) {
    forall k :: 0 <= k < |log| ==> MayLog(log[..k], log[k])
  }

  /** The queue, the handed-out event and the forwards against the log. */
  ghost predicate QueueKept(s: Run) {
    && Distinct(s.b.ready)
    && (forall ev :: ev in s.b.ready ==> Given(ev) !in s.log)
    && (forall n: nat :: ResultEvent(n) in s.b.ready ==> Accepted(CallEvent(n)) in s.log)
    && (forall n: nat :: n in s.b.forwards ==>
          Accepted(CallEvent(n)) in s.log && ResultEvent(n) !in s.b.ready && Given(ResultEvent(n)) !in s.log)
    && (s.b.handedOut.Some? ==>
          Given(s.b.handedOut.value) in s.log && Accepted(s.b.handedOut.value) !in s.log && !s.b.stopped)
  }

  /** The log against the calls there are. */
  ghost predicate LogKept(s: Run) {
    && (forall ev :: Given(ev) in s.log ==>
          ev.n < |s.b.calls| && (Accepted(ev) in s.log || s.b.handedOut == Some(ev) || s.b.stopped))
    && (forall ev :: Accepted(ev) in s.log ==> Given(ev) in s.log)
    && (forall n: nat :: Given(ResultEvent(n)) in s.log ==> Accepted(CallEvent(n)) in s.log)
    && (forall n: nat :: Forwarded(n) in s.log ==> Accepted(CallEvent(n)) in s.log)
    && (forall n: nat :: Replied(n) in s.log ==> Accepted(ResultEvent(n)) in s.log)
    && (s.b.stopped <==> Stopped in s.log)
  }

  predicate ReplyHeld(c: Call) {
    c.response.Resolved? && c.response.answer.Reply?
  }

  /** The pending calls and the futures. */
  ghost predicate CallsKept(s: Run)
    requires Numbered(s.b)
  {
    && |s.b.pending| <= MAX_PENDING_TOOL_CALLS
    && Distinct(s.b.pending)
    && (forall n: nat, m: nat :: n in s.b.pending && m in s.b.pending && n != m ==>
          s.b.calls[n].requestId != s.b.calls[m].requestId)
    && (forall n :: 0 <= n < |s.b.calls| && s.b.calls[n].response.Waiting? ==> n in s.b.pending && !s.b.stopped)
    && (forall n: nat :: Replied(n) in s.log ==> n < |s.b.calls|)
    && (forall n: nat :: n < |s.b.calls| ==> (Replied(n) in s.log <==> ReplyHeld(s.b.calls[n])))
    && (forall n :: 0 <= n < |s.b.calls| && ReplyHeld(s.b.calls[n]) ==>
          s.b.calls[n].outcome == Some(s.b.calls[n].response.answer.outcome))
    && (forall n: nat :: n < |s.b.calls| && s.b.calls[n].outcome.Some? ==> Accepted(CallEvent(n)) in s.log)
  }

  /** Until the stop, an accepted call runs, has its result under way or given, or had its forward
      cancelled or reflected. */
  ghost predicate NoResultLost(s: Run) {
    !s.b.stopped ==>
      forall n: nat :: Accepted(CallEvent(n)) in s.log ==>
        || n in s.b.forwards
        || ResultEvent(n) in s.b.ready || Given(ResultEvent(n)) in s.log
        || n in s.cancelledForwards || s.b.reflected
  }

  /** A parked reader whose wake-up flag is clear misses nothing. */
  ghost predicate ReaderKept(s: Run)
    requires Numbered(s.b)
  {
    s.parked ==> s.b.handedOut.None? && (s.b.changed || (!HasReadyEvent(s.b) && !s.b.stopped))
  }

  ghost predicate Inv(s: Run) {
    Numbered(s.b) && LogSafe(s.log) && LogKept(s) && QueueKept(s) && CallsKept(s) && NoResultLost(s) && ReaderKept(s)
  }

  // ---------------------------------------------------------------- each step keeps it

  lemma LogGrows(log: seq<Entry>, e: Entry)
    requires LogSafe(log) && MayLog(log, e)
    ensures LogSafe(log + [e])
  {
    forall k | 0 <= k < |log + [e]| ensures MayLog((log + [e])[..k], (log + [e])[k]) {
      assert (log + [e])[..k] == log[..k];
      assert k == |log| ==> log[..k] == log;
    }
  }

  lemma {:induction false} RemoveDistinct<T(!new)>(s: seq<T>, x: T)
    requires Distinct(s)
    ensures Distinct(Remove(s, x))
  {
    if s != [] {
      RemoveDistinct(s[1..], x);
      var r := Remove(s[1..], x);
      assert forall y :: y in r ==> y in s[1..];
      assert s[0] !in s[1..];
    }
  }

  lemma {:induction false} SkipDistinct(b: Barrier, ready: seq<RelayEvent>)
    requires Numbered(b) && Distinct(ready) && forall ev :: ev in ready ==> ev.n < |b.calls|
    ensures Distinct(SkipGivenUp(b, ready))
    ensures forall ev :: ev in ready && ev.ResultEvent? ==> ev in SkipGivenUp(b, ready)
  {
    if ready != [] && !Waits(b, ready[0]) {
      SkipDistinct(b, ready[1..]);
    }
  }

  lemma CallArrivesKeeps(s: Run, id: RequestId, params: Params)
    requires Inv(s) && Admits(s.b, id)
    ensures Inv(s.(b := Admit(s.b, id, params)))
  {
    AdmittedQueue(s, id, params);
    AdmittedCalls(s, id, params);
    hide LogSafe, LogKept, QueueKept, CallsKept, HasReadyEvent;
  }

  lemma AdmittedQueue(s: Run, id: RequestId, params: Params)
    requires Numbered(s.b) && LogKept(s) && QueueKept(s)
    ensures var t := s.(b := Admit(s.b, id, params)); Numbered(t.b) && LogKept(t) && QueueKept(t)
  {
    var n := |s.b.calls|;
    assert CallEvent(n) !in s.b.ready;
    assert Given(CallEvent(n)) !in s.log;
  }

  lemma AdmittedCalls(s: Run, id: RequestId, params: Params)
    requires Numbered(s.b) && CallsKept(s) && Admits(s.b, id)
    ensures var t := s.(b := Admit(s.b, id, params)); Numbered(t.b) ==> CallsKept(t)
  {
    var n := |s.b.calls|;
    var t := s.(b := Admit(s.b, id, params));
    assert forall i :: 0 <= i < n ==> t.b.calls[i] == s.b.calls[i];
    assert n !in s.b.pending;
  }

  /** A step that only resolves futures without a reply, ends calls and drops queued calls. */
  ghost predicate OnlyResolves(b: Barrier, c: Barrier)
    requires Numbered(b)
  {
    && |c.calls| == |b.calls|
    && c == b.(calls := c.calls, pending := c.pending, ready := c.ready)
    && Distinct(c.ready) && Distinct(c.pending) && |c.pending| <= |b.pending|
    && (forall ev :: ev in c.ready ==> ev in b.ready)
    && (forall n: nat :: ResultEvent(n) in b.ready ==> ResultEvent(n) in c.ready)
    && (forall n: nat :: n in c.pending ==> n in b.pending)
    && (forall n :: 0 <= n < |b.calls| ==> OnlyResolvesCall(b.calls[n], c.calls[n]))
    && (forall n :: 0 <= n < |b.calls| && c.calls[n].response.Waiting? && n in b.pending ==> n in c.pending)
  }

  predicate OnlyResolvesCall(before: Call, after: Call) {
    && after.requestId == before.requestId
    && after.outcome == before.outcome
    && (before.GivenUp() ==> after.GivenUp())
    && (after.response == before.response || (before.response.Waiting? && !after.response.Waiting? && !ReplyHeld(after)))
  }

  lemma ResolvingKeeps(s: Run, c: Barrier)
    requires Inv(s) && OnlyResolves(s.b, c)
    ensures Inv(s.(b := c))
  {
    hide LogSafe;
    var t := s.(b := c);
    assert Numbered(c);
    assert CallsKept(t) by {
      hide HasReadyEvent;
      assert forall n :: 0 <= n < |c.calls| ==> OnlyResolvesCall(s.b.calls[n], c.calls[n]);
    }
    assert ReaderKept(t) by {
      assert forall ev :: ev in c.ready && Waits(c, ev) ==>
        ev in s.b.ready && OnlyResolvesCall(s.b.calls[ev.n], c.calls[ev.n]) && Waits(s.b, ev);
    }
  }

  lemma FuturesOnlyResolve(s: Run, step: Step, carries: string -> bool)
    requires Numbered(s.b) && Enabled(s, step) && Distinct(s.b.ready) && Distinct(s.b.pending)
    requires step.CallTaskCancelled? || step.CallReturns? || step.CliCancels?
    ensures OnlyResolves(s.b, Next(s, step, carries).b)
    ensures Next(s, step, carries) == s.(b := Next(s, step, carries).b)
  {
    match step {
      case CallTaskCancelled(n) =>
      case CallReturns(n) =>
        RemoveDistinct(s.b.pending, n);
        RemoveDistinct(s.b.ready, CallEvent(n));
      case CliCancels(id) =>
        CancelOnlyResolves(s.b, id);
    }
  }

  lemma CancelOnlyResolves(b: Barrier, id: RequestId)
    requires Numbered(b) && Distinct(b.ready) && Distinct(b.pending)
    ensures OnlyResolves(b, Cancel(b, id))
  {
    match PendingWith(b, id) {
      case None =>
      case Some(n) =>
        RemoveDistinct(b.pending, n);
        RemoveDistinct(b.ready, CallEvent(n));
        var pending, ready, c := Remove(b.pending, n), Remove(b.ready, CallEvent(n)), Cancel(b, id);
        hide Remove, PendingWith, Distinct;
        assert c.pending == pending && c.ready == ready;
        assert forall m :: 0 <= m < |b.calls| && m != n ==> c.calls[m] == b.calls[m];
        assert OnlyResolvesCall(b.calls[n], c.calls[n]);
    }
  }

  lemma FlagsKeep(s: Run, step: Step, carries: string -> bool)
    requires Inv(s) && Enabled(s, step)
    requires step.UnofferedToolCalled? || step.AnswerReflected? || step.ReaderLeaves?
    ensures Inv(Next(s, step, carries))
  {
    hide LogSafe;
  }

  lemma StopKeeps(s: Run)
    requires Inv(s)
    ensures Inv(s.(b := Stop(s.b), log := s.log + [Stopped]))
  {
    var t := s.(b := Stop(s.b), log := s.log + [Stopped]);
    LogGrows(s.log, Stopped);
    hide LogSafe, HasReadyEvent;
    assert forall e: Entry :: e in t.log <==> e in s.log || e == Stopped;
    assert QueueKept(t) && LogKept(t);
    StopKeepsCalls(s);
  }

  lemma StopKeepsCalls(s: Run)
    requires Numbered(s.b) && CallsKept(s)
    ensures Numbered(Stop(s.b)) && CallsKept(s.(b := Stop(s.b), log := s.log + [Stopped]))
  {
  }

  lemma AskKeepsQueue(s: Run)
    requires Numbered(s.b) && QueueKept(s) && LogKept(s)
    ensures Numbered(Asks(s).b) && QueueKept(Asks(s)) && LogKept(Asks(s))
  {
    var (b, asked) := NextEvent(s.b);
    if asked.HandsOut? {
      SkipDistinct(s.b, s.b.ready);
      HandOutKeepsQueue(s, Asks(s), SkipGivenUp(s.b, s.b.ready));
    }
  }

  lemma HandOutKeepsQueue(s: Run, t: Run, left: seq<RelayEvent>)
    requires Numbered(s.b) && QueueKept(s) && LogKept(s) && s.b.handedOut.None? && !s.b.stopped
    requires left != [] && Distinct(left) && forall ev :: ev in left ==> ev in s.b.ready
    requires t.b == s.b.(ready := left[1..], handedOut := Some(left[0])) && t.log == s.log + [Given(left[0])]
    ensures Numbered(t.b) && QueueKept(t) && LogKept(t)
  {
    assert forall e: Entry :: e in t.log <==> e in s.log || e == Given(left[0]);
    assert forall ev: RelayEvent :: ev in t.b.ready ==> ev in left && ev != left[0];
    assert left[0] in s.b.ready;
  }

  lemma AskKeepsLog(s: Run)
    requires Numbered(s.b) && LogSafe(s.log) && QueueKept(s) && LogKept(s)
    ensures LogSafe(Asks(s).log)
  {
    var (b, asked) := NextEvent(s.b);
    if asked.HandsOut? {
      assert asked.ev in s.b.ready;
      LogGrows(s.log, Given(asked.ev));
    }
  }

  lemma AskKeepsCalls(s: Run)
    requires Numbered(s.b) && CallsKept(s)
    ensures Numbered(Asks(s).b) ==> CallsKept(Asks(s))
  {
  }

  lemma AskKeepsResults(s: Run)
    requires Numbered(s.b) && QueueKept(s) && LogKept(s) && NoResultLost(s)
    ensures NoResultLost(Asks(s))
  {
    SkipDistinct(s.b, s.b.ready);
  }

  lemma AskKeepsReader(s: Run)
    requires Numbered(s.b) && QueueKept(s) && ReaderKept(s) && (s.parked ==> s.b.changed)
    ensures Numbered(Asks(s).b) ==> ReaderKept(Asks(s))
  {
  }

  lemma AskKeeps(s: Run)
    requires Inv(s) && (s.parked ==> s.b.changed)
    ensures Inv(Asks(s))
  {
    AskKeepsQueue(s);
    AskKeepsLog(s);
    AskKeepsCalls(s);
    AskKeepsResults(s);
    AskKeepsReader(s);
  }

  /** What an accept of the handed-out event does, told by cases. */
  lemma AcceptingTold(s: Run, ev: RelayEvent)
    requires Numbered(s.b) && s.b.handedOut == Some(ev)
    ensures var t := Accepts(s, ev);
            && t.b.handedOut.None? && |t.b.calls| == |s.b.calls| && t.b.pending == s.b.pending && t.b.stopped == s.b.stopped
            && (|| (t.b.ready == s.b.ready && t.b.forwards == s.b.forwards)
                || (ev.CallEvent? && t.b.ready == [ResultEvent(ev.n)] + s.b.ready && t.b.forwards == s.b.forwards)
                || (ev.CallEvent? && t.b.ready == s.b.ready && t.b.forwards.Keys == s.b.forwards.Keys + {ev.n}))
            && (|| t.log == s.log + [Accepted(ev)]
                || (ev.CallEvent? && t.log == s.log + [Accepted(ev)] + [Forwarded(ev.n)])
                || (ev.ResultEvent? && t.log == s.log + [Accepted(ev)] + [Replied(ev.n)]))
            && (ev.CallEvent? ==> t.b.calls == s.b.calls)
            && (ev.ResultEvent? && t.b.calls == s.b.calls ==> t.log == s.log + [Accepted(ev)])
            && (ev.ResultEvent? && t.b.calls != s.b.calls ==>
                 && s.b.calls[ev.n].response.Waiting? && s.b.calls[ev.n].outcome.Some?
                 && t.b.calls == s.b.calls[ev.n := s.b.calls[ev.n].(response := Resolved(Reply(s.b.calls[ev.n].outcome.value)))]
                 && t.log == s.log + [Accepted(ev)] + [Replied(ev.n)])
  {
  }

  lemma AcceptKeepsQueue(s: Run, ev: RelayEvent)
    requires Numbered(s.b) && QueueKept(s) && LogKept(s)
    ensures Numbered(Accepts(s, ev).b) && QueueKept(Accepts(s, ev))
  {
    if s.b.handedOut == Some(ev) {
      AcceptingTold(s, ev);
      var t := Accepts(s, ev);
      hide Accepts, QueueKept, LogKept;
      assert forall e: RelayEvent :: Given(e) in t.log <==> Given(e) in s.log;
      assert forall e: RelayEvent :: Accepted(e) in t.log <==> Accepted(e) in s.log || e == ev;
      AcceptedQueueKept(s, t, ev);
    }
  }

  lemma AcceptedQueueKept(s: Run, t: Run, ev: RelayEvent)
    requires Numbered(s.b) && QueueKept(s) && LogKept(s) && s.b.handedOut == Some(ev)
    requires t.b.handedOut.None? && |t.b.calls| == |s.b.calls| && t.b.pending == s.b.pending
    requires forall e: RelayEvent :: Given(e) in t.log <==> Given(e) in s.log
    requires forall e: RelayEvent :: Accepted(e) in t.log <==> Accepted(e) in s.log || e == ev
    requires || (t.b.ready == s.b.ready && t.b.forwards == s.b.forwards)
             || (ev.CallEvent? && t.b.ready == [ResultEvent(ev.n)] + s.b.ready && t.b.forwards == s.b.forwards)
             || (ev.CallEvent? && t.b.ready == s.b.ready && t.b.forwards.Keys == s.b.forwards.Keys + {ev.n})
    ensures Numbered(t.b) && QueueKept(t)
  {
  }

  lemma AcceptKeepsLogKept(s: Run, ev: RelayEvent)
    requires Numbered(s.b) && QueueKept(s) && LogKept(s)
    ensures LogKept(Accepts(s, ev))
  {
    if s.b.handedOut == Some(ev) {
      var t := Accepts(s, ev);
      assert t.b.stopped == s.b.stopped && |t.b.calls| == |s.b.calls|;
      assert t.log == s.log + [Accepted(ev)] + t.log[|s.log| + 1..];
      AcceptedIsLogged(s, t, ev, t.log[|s.log| + 1..]);
    }
  }

  lemma AcceptedIsLogged(s: Run, t: Run, ev: RelayEvent, sequel: seq<Entry>)
    requires LogKept(s) && s.b.handedOut == Some(ev) && Given(ev) in s.log && !s.b.stopped
    requires !t.b.stopped && |t.b.calls| == |s.b.calls|
    requires t.log == s.log + [Accepted(ev)] + sequel
    requires sequel == [] || (ev.CallEvent? && sequel == [Forwarded(ev.n)])
                          || (ev.ResultEvent? && sequel == [Replied(ev.n)])
    ensures LogKept(t)
  {
    assert forall e: Entry :: e in t.log <==> e in s.log || e == Accepted(ev) || e in sequel;
  }

  lemma AcceptKeepsLog(s: Run, ev: RelayEvent)
    requires Numbered(s.b) && LogSafe(s.log) && QueueKept(s) && LogKept(s) && CallsKept(s)
    ensures LogSafe(Accepts(s, ev).log)
  {
    if s.b.handedOut == Some(ev) {
      var t := Accepts(s, ev);
      LogGrows(s.log, Accepted(ev));
      var log := s.log + [Accepted(ev)];
      if t.log != log {
        LogGrows(log, t.log[|log|]);
      }
    }
  }

  lemma AcceptKeepsCalls(s: Run, ev: RelayEvent)
    requires Numbered(s.b) && CallsKept(s)
    ensures Numbered(Accepts(s, ev).b) ==> CallsKept(Accepts(s, ev))
  {
    if s.b.handedOut == Some(ev) && Numbered(Accepts(s, ev).b) {
      AcceptingTold(s, ev);
      var t := Accepts(s, ev);
      hide Accepts, CallsKept;
      if t.b.calls == s.b.calls {
        CallAcceptKeepsCalls(s, t);
      } else {
        ReplyKeepsCalls(s, t, ev.n);
      }
    }
  }

  lemma CallAcceptKeepsCalls(s: Run, t: Run)
    requires Numbered(s.b) && CallsKept(s) && Numbered(t.b)
    requires t.b.calls == s.b.calls && t.b.pending == s.b.pending && t.b.stopped == s.b.stopped
    requires forall n: nat :: Replied(n) in t.log <==> Replied(n) in s.log
    requires forall e: Entry :: e in s.log ==> e in t.log
    ensures CallsKept(t)
  {
  }

  lemma ReplyKeepsCalls(s: Run, t: Run, n: nat)
    requires Numbered(s.b) && CallsKept(s) && Numbered(t.b) && n < |s.b.calls|
    requires s.b.calls[n].response.Waiting? && s.b.calls[n].outcome.Some?
    requires t.b.calls == s.b.calls[n := s.b.calls[n].(response := Resolved(Reply(s.b.calls[n].outcome.value)))]
    requires t.b.pending == s.b.pending && t.b.stopped == s.b.stopped
    requires forall m: nat :: Replied(m) in t.log <==> Replied(m) in s.log || m == n
    requires forall e: Entry :: e in s.log ==> e in t.log
    ensures CallsKept(t)
  {
  }

  lemma AcceptKeepsResults(s: Run, ev: RelayEvent)
    requires Numbered(s.b) && QueueKept(s) && LogKept(s) && NoResultLost(s)
    ensures NoResultLost(Accepts(s, ev))
  {
  }

  lemma AcceptKeeps(s: Run, ev: RelayEvent)
    requires Inv(s)
    ensures Inv(Accepts(s, ev))
  {
    AcceptKeepsQueue(s, ev);
    AcceptKeepsLogKept(s, ev);
    AcceptKeepsLog(s, ev);
    AcceptKeepsCalls(s, ev);
    AcceptKeepsResults(s, ev);
  }

  /** What the end of a forward may change: its own call, the forwards, and the end of the queue. */
  predicate CompletedTo(b: Barrier, c: Barrier, n: nat)
    requires n < |b.calls|
  {
    && |c.calls| == |b.calls| && c.pending == b.pending && c.handedOut == b.handedOut && c.stopped == b.stopped
    && c.forwards == b.forwards - {n}
    && (forall m :: 0 <= m < |b.calls| && m != n ==> c.calls[m] == b.calls[m])
    && CallCompleted(b.calls[n], c.calls[n])
    && (c.ready == b.ready || c.ready == b.ready + [ResultEvent(n)])
  }

  predicate CallCompleted(before: Call, after: Call) {
    && after == before.(response := after.response, outcome := after.outcome)
    && (after.response == before.response || (before.response.Waiting? && after.response == Resolved(Unanswered)))
  }

  lemma CompletingTold(b: Barrier, n: nat, ending: Ending, carries: string -> bool)
    requires n < |b.calls|
    ensures CompletedTo(b, Complete(b, n, ending, carries), n)
  {
  }

  lemma CompleteKeepsQueue(s: Run, n: nat, ending: Ending, carries: string -> bool)
    requires Numbered(s.b) && QueueKept(s) && LogKept(s) && n in s.b.forwards
    ensures var t := Next(s, ForwardEnds(n, ending), carries);
            Numbered(t.b) && QueueKept(t) && LogKept(t) && t.log == s.log
  {
    CompletingTold(s.b, n, ending, carries);
    hide Complete, QueueKept, LogKept, CallCompleted;
    var t := Next(s, ForwardEnds(n, ending), carries);
    if t.b.ready == s.b.ready {
      QueueWithdrawn(s, t);
    } else {
      QueueAppended(s, t, n);
    }
  }

  predicate SameQueueFrame(s: Run, t: Run) {
    && t.log == s.log && |t.b.calls| == |s.b.calls| && t.b.pending == s.b.pending
    && t.b.handedOut == s.b.handedOut && t.b.stopped == s.b.stopped
  }

  lemma QueueWithdrawn(s: Run, t: Run)
    requires Numbered(s.b) && QueueKept(s) && LogKept(s) && SameQueueFrame(s, t)
    requires t.b.ready == s.b.ready && t.b.forwards.Keys <= s.b.forwards.Keys
    ensures Numbered(t.b) && QueueKept(t) && LogKept(t)
  {
  }

  lemma QueueAppended(s: Run, t: Run, n: nat)
    requires Numbered(s.b) && QueueKept(s) && LogKept(s) && SameQueueFrame(s, t)
    requires n in s.b.forwards && t.b.ready == s.b.ready + [ResultEvent(n)]
    requires t.b.forwards.Keys == s.b.forwards.Keys - {n}
    ensures Numbered(t.b) && QueueKept(t) && LogKept(t)
  {
  }

  lemma CompleteKeepsCalls(s: Run, n: nat, ending: Ending, carries: string -> bool)
    requires Numbered(s.b) && CallsKept(s) && LogKept(s) && QueueKept(s) && n in s.b.forwards
    ensures var t := Next(s, ForwardEnds(n, ending), carries); Numbered(t.b) ==> CallsKept(t)
  {
    var t := Next(s, ForwardEnds(n, ending), carries);
    assert Replied(n) !in s.log;
    assert Accepted(CallEvent(n)) in s.log && (Replied(n) in s.log <==> ReplyHeld(s.b.calls[n]));
    CompletingTold(s.b, n, ending, carries);
    hide Complete, CallsKept, LogKept, QueueKept;
    OneCallChanges(s, t, n);
  }

  lemma OneCallChanges(s: Run, t: Run, n: nat)
    requires Numbered(s.b) && CallsKept(s) && n < |s.b.calls| && SameQueueFrame(s, t)
    requires forall m :: 0 <= m < |s.b.calls| && m != n ==> t.b.calls[m] == s.b.calls[m]
    requires !ReplyHeld(s.b.calls[n]) && !ReplyHeld(t.b.calls[n])
    requires t.b.calls[n].requestId == s.b.calls[n].requestId
    requires t.b.calls[n].response.Waiting? ==> s.b.calls[n].response.Waiting?
    requires t.b.calls[n].outcome.Some? ==> Accepted(CallEvent(n)) in s.log
    ensures Numbered(t.b) ==> CallsKept(t)
  {
  }

  lemma CompleteKeepsResults(s: Run, n: nat, ending: Ending, carries: string -> bool)
    requires Numbered(s.b) && NoResultLost(s) && n in s.b.forwards
    ensures NoResultLost(Next(s, ForwardEnds(n, ending), carries))
  {
  }

  lemma CompleteKeepsReader(s: Run, n: nat, ending: Ending, carries: string -> bool)
    requires Numbered(s.b) && ReaderKept(s) && n in s.b.forwards
    ensures var t := Next(s, ForwardEnds(n, ending), carries); Numbered(t.b) ==> ReaderKept(t)
  {
  }

  lemma CompleteKeeps(s: Run, n: nat, ending: Ending, carries: string -> bool, t: Run)
    requires Numbered(s.b) && n in s.b.forwards && t == Next(s, ForwardEnds(n, ending), carries)
    requires Inv(s)
    ensures Inv(t)
  {
    hide Next, LogSafe, LogKept, QueueKept, CallsKept, NoResultLost, ReaderKept;
    CompleteKeepsQueue(s, n, ending, carries);
    CompleteKeepsCalls(s, n, ending, carries);
    CompleteKeepsResults(s, n, ending, carries);
    CompleteKeepsReader(s, n, ending, carries);
  }

  /** Every step any task can take next keeps the barrier's invariant. */
  lemma EveryStepKeepsTheInvariant(s: Run, step: Step, carries: string -> bool)
    requires Inv(s) && Enabled(s, step)
    ensures Inv(Next(s, step, carries))
  {
    hide LogSafe, LogKept, QueueKept, CallsKept, NoResultLost, ReaderKept;
    match step {
      case CallArrives(id, params) =>
        if Admits(s.b, id) {
          CallArrivesKeeps(s, id, params);
        }
      case CallTaskCancelled(_) => FuturesKeep(s, step, carries);
      case CallReturns(_) => FuturesKeep(s, step, carries);
      case CliCancels(_) => FuturesKeep(s, step, carries);
      case UnofferedToolCalled => FlagsKeep(s, step, carries);
      case AnswerReflected => FlagsKeep(s, step, carries);
      case ReaderLeaves => FlagsKeep(s, step, carries);
      case ReaderAsks => AskKeeps(s);
      case ReaderWakes => AskKeeps(s);
      case EventAccepted(ev) => AcceptKeeps(s, ev);
      case BarrierStops => StopKeeps(s);
      case ForwardEnds(n, ending) => CompleteKeeps(s, n, ending, carries, Next(s, step, carries));
    }
  }

  lemma FuturesKeep(s: Run, step: Step, carries: string -> bool)
    requires Inv(s) && Enabled(s, step)
    requires step.CallTaskCancelled? || step.CallReturns? || step.CliCancels?
    ensures Inv(Next(s, step, carries))
  {
    FuturesOnlyResolve(s, step, carries);
    var t := Next(s, step, carries);
    hide Next;
    ResolvingKeeps(s, t.b);
  }
}
