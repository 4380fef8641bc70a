/** A run under its supervisor (packages/service/src/agent_runtime_service/run_liveness.py): the pump
    that steps the runner, the supervisor that sends frames through a one-frame slot, the one task
    that stops the runner and commits the terminal, and the client that takes frames.

    One step of the machine is at most one await-free region of one task; where the source reads its
    clock several times in a region, the readings are independent and a step may end between them, so
    the machine allows every interleaving of the source and more. */
module Supervision {
  import opened Wire
  import opened RunStreams
  import opened WireRuns

  const IDLE_TIMEOUT_MESSAGE := "The run was silent for too long."
  const LIMIT_EXCEEDED_MESSAGE := "The run reached its maximum duration."

  // ---------------------------------------------------------------- deadlines

  datatype Instant = At(time: real) | Never

  datatype Deadlines = Deadlines(heartbeat: Instant, maximum: Instant, idle: Instant, stall: Instant)

  datatype Action = HandleEvent | EndAtLimit | EndIdle | Beat | Drop | Wait

  predicate Passed(due: Instant, now: real) {
    due.At? && now >= due.time
  }

  function Earlier(a: Instant, b: Instant): Instant {
    if a.Never? || (b.At? && b.time <= a.time) then b else a
  }

  /** The instant the supervisor sleeps until. */
  function NextDeadline(d: Deadlines): Instant {
    Earlier(Earlier(d.heartbeat, d.maximum), Earlier(d.idle, d.stall))
  }

  function Decided(now: real, eventReady: bool, d: Deadlines): Action {
    if Passed(d.stall, now) then Drop
    else if eventReady then HandleEvent
    else if Passed(d.maximum, now) then EndAtLimit
    else if Passed(d.idle, now) then EndIdle
    else if Passed(d.heartbeat, now) then Beat
    else Wait
  }

  /** The supervisor waits exactly while no event is ready and no deadline has come: it neither spins
      nor sleeps past a deadline, and the instant it sleeps until is one of them. */
  lemma WaitsExactlyUntilTheNextDeadline(now: real, eventReady: bool, d: Deadlines)
    ensures Decided(now, eventReady, d) == Wait <==> !eventReady && !Passed(NextDeadline(d), now)
    ensures forall later: real :: Passed(NextDeadline(d), later) ==> Decided(later, eventReady, d) != Wait
    ensures NextDeadline(d) in {d.heartbeat, d.maximum, d.idle, d.stall}
  {
  }

  // ---------------------------------------------------------------- the state

  datatype Timeouts = Timeouts(heartbeat: real, idle: real, maximum: real, stall: real)

  type Group = nat

  /** What the supervisor does once the runner is stopped. */
  datatype Then = FillLast(pending: Option<RunEvent>) | CloseSlot

  datatype Place =
    | Unstarted | Driving | Delivering(frame: RunEvent) | Checking
    | Stopping(next: Then) | Filling(frames: Trace) | Closed | NeverRan

  datatype Pump = AwaitsStep | Stepping | Closing | PumpDone

  datatype Reap = NotAsked | Asked | AwaitsPump | Finished

  datatype Slot = Slot(frame: Option<RunEvent>, closed: bool)

  /** `sent` logs the events the stream accepted, `taken` those the client got; `cut` says that the
      supervisor gave up on the client; `over` is what the run's record ended with. */
  datatype Run = Run(
    wire: Writer, sent: Trace, taken: Trace, slot: Slot, clientDone: bool,
    place: Place, cut: bool,
    pump: Pump, stepWanted: bool, outcome: Option<RunnerOutcome>, losses: seq<Group>,
    reap: Reap, handedOver: Option<seq<Group>>, over: Option<RunEvent>,
    heartbeatDue: real, maximumDue: real, idleDue: Instant, stallDue: real, since: Since)

  /** When the run started, was last quiet, last asked its runner for a step and last filled its slot. */
  datatype Since = Since(started: real, quiet: real, asked: real, filled: real)

  datatype Config = Config(timeouts: Timeouts, encode: Encoder)

  datatype Step =
    | Start(startedAt: real)
    | Look(now: real, fillAt: real, beatAt: real)
    | PutDown(now: real, fillAt: real, beatAt: real)
    | Check(now: real, since: real)
    | Resume(raises: bool)
    | FillNext(now: real, fillAt: real)
    | Interrupt
    | LeaveUnstarted
    | TakeStep
    | Yield(outcome: RunnerOutcome, met: seq<Group>)
    | Break(met: seq<Group>)
    | EndPump(met: seq<Group>)
    | StartReap
    | FinishReap
    | ClientTakes

  predicate Stopped(s: Run) {
    s.reap.AwaitsPump? || s.reap.Finished?
  }

  predicate Live(place: Place) {
    place.Unstarted? || place.Driving? || place.Delivering? || place.Checking?
  }

  predicate Enabled(s: Run, step: Step) {
    match step
    case Start(_) => s.place.Unstarted?
    case Look(_, _, _) => s.place.Driving?
    case PutDown(_, _, _) => s.place.Delivering?
    case Check(_, _) => s.place.Checking?
    case Resume(_) => s.place.Stopping? && s.reap.Finished?
    case FillNext(_, _) => s.place.Filling?
    case Interrupt => !s.place.Unstarted? && !s.place.NeverRan? && !s.place.Closed?
    case LeaveUnstarted => s.place.Unstarted?
    case TakeStep => s.pump.AwaitsStep? && s.stepWanted
    case Yield(_, _) => s.pump.Stepping?
    case Break(_) => s.pump.Stepping? || (s.pump.AwaitsStep? && Stopped(s))
    case EndPump(_) => s.pump.Closing?
    case StartReap => s.reap.Asked?
    case FinishReap => s.reap.AwaitsPump? && s.pump.PumpDone?
    case ClientTakes => !s.clientDone && (s.slot.frame.Some? || s.slot.closed)
  }

  // ---------------------------------------------------------------- the supervisor's regions

  function Stall(s: Run): Instant {
    if s.slot.frame.None? then Never else At(s.stallDue)
  }

  function DeadlinesOf(s: Run): Deadlines {
    Deadlines(At(s.heartbeatDue), At(s.maximumDue), s.idleDue, Stall(s))
  }

  function BlockedDeadlines(s: Run): Deadlines {
    Deadlines(Never, At(s.maximumDue), Never, Stall(s))
  }

  function EndingDeadlines(s: Run): Deadlines {
    Deadlines(Never, Never, Never, Stall(s))
  }

  function BeginStop(s: Run, next: Then): Run {
    s.(place := Stopping(next), cut := s.cut || next.CloseSlot?, reap := if s.reap.NotAsked? then Asked else s.reap)
  }

  function EndWith(s: Run, code: FailureCode, message: string, pending: Option<RunEvent>): Run {
    BeginStop(s.(wire := Decide(s.wire, Failure(code, message))), FillLast(pending))
  }

  function Fill(c: Config, s: Run, frame: RunEvent, fillAt: real): Run {
    s.(slot := s.slot.(frame := Some(frame)), stallDue := fillAt + c.timeouts.stall, since := s.since.(filled := fillAt))
  }

  function QuietFrom(c: Config, s: Run, beatAt: real): Run {
    s.(heartbeatDue := beatAt + c.timeouts.heartbeat, since := s.since.(quiet := beatAt))
  }

  function Queue(c: Config, s: Run, frame: RunEvent, fillAt: real, beatAt: real): Run {
    QuietFrom(c, Fill(c, s, frame, fillAt), beatAt)
  }

  function RequestStep(c: Config, s: Run, since: real): Run {
    s.(idleDue := At(since + c.timeouts.idle), stepWanted := true, since := s.since.(asked := since))
  }

  function Looked(c: Config, s: Run, now: real, fillAt: real, beatAt: real): Run {
    match Decided(now, s.outcome.Some?, DeadlinesOf(s))
    case HandleEvent => if s.outcome.Some? then Handled(c, s) else s
    case EndAtLimit => EndWith(s, LimitExceeded, LIMIT_EXCEEDED_MESSAGE, None)
    case EndIdle => EndWith(s, IdleTimeout, IDLE_TIMEOUT_MESSAGE, None)
    case Beat => Beaten(c, s, fillAt, beatAt)
    case Drop => BeginStop(s, CloseSlot)
    case Wait => s
  }

  /** A runner's outcome: its frame is sent before the slot is waited for. */
  function Handled(c: Config, s: Run): Run
    requires s.outcome.Some?
  {
    var (w, frame) := FrameFor(s.wire, s.outcome.value, c.encode);
    WentOn(s.(outcome := None, idleDue := Never, wire := w), frame)
  }

  function WentOn(s: Run, frame: Option<RunEvent>): Run {
    if s.wire.decided.Some? then BeginStop(s, FillLast(None))
    else if frame.Some? then s.(place := Delivering(frame.value), sent := s.sent + [frame.value])
    else s.(place := Checking)
  }

  /** A heartbeat goes out only into a vacant slot; one that cannot be sent ends the supervision. */
  function Beaten(c: Config, s: Run, fillAt: real, beatAt: real): Run {
    if s.slot.frame.Some? then QuietFrom(c, s, beatAt)
    else
      var beat := Due(s.wire, Heartbeat);
      var (w, refusal) := Send(s.wire, beat, c.encode);
      if refusal.Some? then BeginStop(s.(wire := w), CloseSlot)
      else Queue(c, s.(wire := w, sent := s.sent + [beat]), beat, fillAt, beatAt)
  }

  function Delivered(c: Config, s: Run, now: real, fillAt: real, beatAt: real): Run
    requires s.place.Delivering?
  {
    if s.slot.frame.None? then Queue(c, s, s.place.frame, fillAt, beatAt).(place := Checking)
    else
      match Decided(now, false, BlockedDeadlines(s))
      case Drop => BeginStop(s, CloseSlot)
      case EndAtLimit => EndWith(s, LimitExceeded, LIMIT_EXCEEDED_MESSAGE, Some(s.place.frame))
      case _ => s
  }

  function Checked(c: Config, s: Run, now: real, since: real): Run {
    match Decided(now, false, BlockedDeadlines(s))
    case Drop => BeginStop(s, CloseSlot)
    case EndAtLimit => EndWith(s, LimitExceeded, LIMIT_EXCEEDED_MESSAGE, None)
    case _ => RequestStep(c, s, since).(place := Driving)
  }

  function OneOrNone(e: Option<RunEvent>): Trace {
    if e.Some? then [e.value] else []
  }

  /** The runner is stopped: a missing terminal raises like a recorded failure does. */
  function Resumed(s: Run, raises: bool): Run
    requires s.place.Stopping?
  {
    if s.place.next.FillLast? && !raises && s.wire.terminal.Some?
    then s.(place := Filling(OneOrNone(s.place.next.pending) + OneOrNone(s.wire.terminal)))
    else s.(place := Closed, cut := true, slot := s.slot.(closed := true))
  }

  function Filled(c: Config, s: Run, now: real, fillAt: real): Run
    requires s.place.Filling?
  {
    if s.place.frames == [] then s.(place := Closed, slot := s.slot.(closed := true))
    else if s.slot.frame.None? then
      Fill(c, s, s.place.frames[0], fillAt).(place := Filling(s.place.frames[1..]))
    else if Decided(now, false, EndingDeadlines(s)).Drop? then BeginStop(s, CloseSlot)
    else s
  }

  // ---------------------------------------------------------------- the other tasks' regions

  function Collected(s: Run, met: seq<Group>): Run
    decreases |met|
  {
    if met == [] then s
    else Collected(if met[0] in s.losses then s else s.(losses := s.losses + [met[0]]), met[1..])
  }

  function Yielded(s: Run, outcome: RunnerOutcome, met: seq<Group>): Run {
    if outcome.RunnerRaised? && Stopped(s) then Collected(s, met).(pump := Closing)
    else (if outcome.RunnerRaised? then Collected(s, met) else s)
         .(outcome := Some(outcome), pump := if Stopped(s) then Closing else AwaitsStep)
  }

  /** The place goes to the quarantine before the terminal is committed and the record ends. */
  function Reaped(c: Config, s: Run): Run
    requires s.wire.stream.runId.Some?
  {
    RecordEnded(s.(wire := Commit(s.wire, s.losses != [], c.encode).0))
  }

  function RecordEnded(s: Run): Run {
    s.(sent := s.sent + OneOrNone(s.wire.terminal), reap := Finished,
       handedOver := if s.losses != [] then Some(s.losses) else None,
       over := if s.wire.stream.runId.Some? then Some(RecordEnding(s.wire, s.losses != [])) else None)
  }

  function Taken(s: Run): Run {
    if s.slot.frame.Some? then s.(taken := s.taken + [s.slot.frame.value], slot := s.slot.(frame := None))
    else s.(clientDone := true)
  }

  function Next(c: Config, s: Run, step: Step): Run
    requires Enabled(s, step)
    requires s.wire.stream.runId.Some?
  {
    match step
    case Start(startedAt) => RequestStep(c, s, startedAt).(place := Driving)
    case Look(now, fillAt, beatAt) => Looked(c, s, now, fillAt, beatAt)
    case PutDown(now, fillAt, beatAt) => Delivered(c, s, now, fillAt, beatAt)
    case Check(now, since) => Checked(c, s, now, since)
    case Resume(raises) => Resumed(s, raises)
    case FillNext(now, fillAt) => Filled(c, s, now, fillAt)
    case Interrupt => BeginStop(s, CloseSlot)
    case LeaveUnstarted => BeginStop(s, CloseSlot).(place := NeverRan)
    case TakeStep => s.(stepWanted := false, pump := Stepping)
    case Yield(outcome, met) => Yielded(s, outcome, met)
    case Break(met) => Collected(s, met).(pump := Closing)
    case EndPump(met) => Collected(s, met).(pump := PumpDone)
    case StartReap => s.(reap := AwaitsPump)
    case FinishReap => Reaped(c, s)
    case ClientTakes => Taken(s)
  }

  // ---------------------------------------------------------------- the invariant

  /** What the supervisor still holds for the client. */
  function InHand(s: Run): Trace {
    match s.place
    case Delivering(frame) => [frame]
    case Stopping(FillLast(pending)) => OneOrNone(pending) + OneOrNone(s.wire.terminal)
    case Filling(frames) => frames
    case _ => []
  }

  function Given(s: Run): Trace {
    s.taken + OneOrNone(s.slot.frame)
  }

  /** No frame is lost, doubled or reordered between the stream and the client. */
  predicate FramesKept(s: Run) {
    && (!s.cut ==> Given(s) + InHand(s) == s.sent)
    && (s.cut ==> Given(s) <= s.sent)
  }

  /** Where the supervisor is tells what was decided and whether the runner is being stopped. */
  predicate PlaceFits(s: Run) {
    && (Live(s.place) ==> s.wire.decided.None? && s.reap.NotAsked? && !s.cut)
    && (!Live(s.place) ==> !s.reap.NotAsked?)
    && (s.place.Stopping? ==> (s.place.next.FillLast? ==> s.wire.decided.Some? && !s.cut)
                              && (s.place.next.CloseSlot? ==> s.cut))
    && (s.place.Filling? ==> s.reap.Finished? && s.wire.terminal.Some? && !s.cut)
    && (s.place.NeverRan? ==> s.cut)
    && (s.place.Closed? ==> s.reap.Finished? && (!s.cut ==> s.wire.terminal.Some?))
    && (s.slot.closed <==> s.place.Closed?)
    && (s.clientDone ==> s.slot.closed && s.slot.frame.None?)
  }

  /** The runner is asked for one step at a time, and its outcome waits until it is handled. */
  predicate OneStepAtATime(s: Run) {
    && !(s.stepWanted && s.pump.Stepping?) && !(s.stepWanted && s.outcome.Some?)
    && !(s.pump.Stepping? && s.outcome.Some?)
    && (Live(s.place) && !s.place.Driving? ==> !s.stepWanted && !s.pump.Stepping? && s.outcome.None?)
    && (s.place.Driving? && s.pump.AwaitsStep? ==> s.stepWanted || s.outcome.Some?)
    && (Live(s.place) ==> (s.place.Driving? <==> s.idleDue.At?))
    && (s.reap.Finished? ==> s.pump.PumpDone?)
  }

  /** The terminal and the record come with the end of the reap, and only then. */
  ghost predicate RecordKept(c: Config, s: Run) {
    && Wrote(s.wire, s.sent, c.encode) && s.sent != []
    && (!s.reap.Finished? ==>
         && !Ended(s.sent) && s.wire.terminal.None? && OwnDecision(s.wire)
         && s.handedOver.None? && s.over.None?)
    && (s.reap.Finished? ==>
         && (s.wire.terminal.Some? ==> s.over == s.wire.terminal && s.sent[|s.sent| - 1] == s.over.value)
         && (s.wire.terminal.None? ==> !Ended(s.sent))
         && s.over.Some? && s.over.value.body.Terminal()
         && Accepted(WithoutLast(s) + [s.over.value])
         && s.handedOver == (if s.losses == [] then None else Some(s.losses))
         && (s.losses != [] ==> s.over.value.body == Failed(ProviderError, RUNNER_FAILED_MESSAGE)))
  }

  /** The events sent before the terminal. */
  function WithoutLast(s: Run): Trace {
    if s.wire.terminal.Some? && s.sent != [] then s.sent[..|s.sent| - 1] else s.sent
  }

  predicate NoDoubles(groups: seq<Group>) {
    forall i, j :: 0 <= i < j < |groups| ==> groups[i] != groups[j]
  }

  ghost predicate Inv(c: Config, s: Run) {
    && RecordKept(c, s) && PlaceFits(s) && OneStepAtATime(s) && FramesKept(s) && NoDoubles(s.losses)
  }

  lemma RunIsKnown(c: Config, s: Run)
    requires RecordKept(c, s)
    ensures s.wire.stream.runId.Some?
  {
    PromisesOfWritten(s.wire, s.sent, c.encode);
  }

  // ---------------------------------------------------------------- every step keeps it

  /** The steps that write nothing and stop nothing leave the record as it was. */
  predicate SameRecord(t: Run, s: Run) {
    t.wire == s.wire && t.sent == s.sent && t.reap.Finished? == s.reap.Finished?
    && t.handedOver == s.handedOver && t.over == s.over && (s.reap.Finished? ==> t.losses == s.losses)
  }

  lemma SameRecordKeeps(c: Config, s: Run, t: Run)
    requires RecordKept(c, s) && SameRecord(t, s)
    ensures RecordKept(c, t)
  {
  }

  /** The steps before the end that send at most one event. */
  lemma SendingRecords(c: Config, s: Run, t: Run, more: Trace)
    requires RecordKept(c, s) && !s.reap.Finished?
    requires t.sent == s.sent + more && !t.reap.Finished? && t.handedOver.None? && t.over.None?
    requires Wrote(t.wire, t.sent, c.encode) && t.wire.terminal.None? && OwnDecision(t.wire)
    requires |more| <= 1 && (more != [] ==> !more[0].body.Terminal())
    ensures RecordKept(c, t)
  {
    if more != [] {
      LastEvent(s.sent, more[0]);
      assert more == [more[0]];
    }
  }

  lemma DecidingKeeps(c: Config, s: Run, code: FailureCode, message: string, pending: Option<RunEvent>)
    requires RecordKept(c, s) && !s.reap.Finished? && OwnFailure(Failure(code, message))
    ensures RecordKept(c, EndWith(s, code, message, pending))
  {
    hide BytesOf, CallsOf, Accepted, PromisesOf;
  }

  lemma HandlingRecords(c: Config, s: Run)
    requires RecordKept(c, s) && PlaceFits(s) && Live(s.place) && s.outcome.Some?
    ensures RecordKept(c, Handled(c, s))
  {
    var (w, frame) := FrameFor(s.wire, s.outcome.value, c.encode);
    FrameKeeps(s.wire, s.sent, s.outcome.value, c.encode);
    hide Wrote, FrameFor, OwnDecision, RecordKept, Ended, Accepted;
    assert s.sent + [] == s.sent;
    RecordIsOpen(c, s);
    SendingRecords(c, s, Handled(c, s), OneOrNone(frame));
  }

  lemma RecordIsOpen(c: Config, s: Run)
    requires RecordKept(c, s) && !s.reap.Finished?
    ensures s.handedOver.None? && s.over.None? && s.wire.terminal.None?
  {
  }

  lemma SendingKeepsTheDecision(w: Writer, e: RunEvent, encode: Encoder)
    ensures var v := Send(w, e, encode).0;
            v.decided == w.decided && v.terminal == w.terminal
  {
  }

  lemma FramingKeepsTheTerminal(w: Writer, outcome: RunnerOutcome, encode: Encoder)
    ensures var (v, frame) := FrameFor(w, outcome, encode);
            v.terminal == w.terminal && (frame.Some? ==> v.decided == w.decided)
  {
    hide Send;
    if outcome.RunnerYielded? && Map(w, outcome.event).WireEvent? {
      SendingKeepsTheDecision(w, Map(w, outcome.event).event, encode);
    }
  }

  lemma BeatingRecords(c: Config, s: Run, fillAt: real, beatAt: real)
    requires RecordKept(c, s) && PlaceFits(s) && Live(s.place)
    ensures RecordKept(c, Beaten(c, s, fillAt, beatAt))
  {
    var t := Beaten(c, s, fillAt, beatAt);
    if s.slot.frame.Some? {
      SameRecordKeeps(c, s, t);
    } else {
      var beat := Due(s.wire, Heartbeat);
      SendingKeeps(s.wire, s.sent, beat, c.encode);
      var refusal := Send(s.wire, beat, c.encode).1;
      hide Wrote, Send, Ended, Accepted;
      assert s.sent + [] == s.sent;
      SendingRecords(c, s, t, if refusal.None? then [beat] else []);
    }
  }

  lemma ReapingRecords(c: Config, s: Run)
    requires s.wire.stream.runId.Some?
    requires RecordKept(c, s) && !s.reap.Finished?
    ensures RecordKept(c, Reaped(c, s))
  {
    var lost := s.losses != [];
    var t := Reaped(c, s);
    RecordsAreWholeRuns(s.wire, s.sent, lost, c.encode);
    if s.wire.decided.Some? {
      CommitKeeps(s.wire, s.sent, lost, c.encode);
    }
    hide Wrote, Commit, Ended, Accepted, RecordEnding;
    assert s.sent + [] == s.sent;
    if t.wire.terminal.Some? {
      assert WithoutLast(t) == s.sent;
    }
    RecordedTerminal(t.wire, lost);
  }

  lemma RecordedTerminal(w: Writer, lost: bool)
    requires w.stream.runId.Some?
    ensures w.terminal.Some? ==> RecordEnding(w, lost) == w.terminal.value
  {
  }

  lemma CollectedKeeps(s: Run, met: seq<Group>)
    requires NoDoubles(s.losses)
    ensures Collected(s, met) == s.(losses := Collected(s, met).losses)
    ensures NoDoubles(Collected(s, met).losses)
    ensures s.losses <= Collected(s, met).losses
    ensures forall g :: g in Collected(s, met).losses <==> g in s.losses || g in met
    decreases |met|
  {
    if met != [] {
      CollectedKeeps(if met[0] in s.losses then s else s.(losses := s.losses + [met[0]]), met[1..]);
    }
  }

  lemma LookingRecords(c: Config, s: Run, now: real, fillAt: real, beatAt: real)
    requires RecordKept(c, s) && PlaceFits(s) && s.place.Driving?
    ensures RecordKept(c, Looked(c, s, now, fillAt, beatAt))
  {
    hide RecordKept, Handled, Beaten;
    match Decided(now, s.outcome.Some?, DeadlinesOf(s))
    case HandleEvent => HandlingRecords(c, s);
    case EndAtLimit => DecidingKeeps(c, s, LimitExceeded, LIMIT_EXCEEDED_MESSAGE, None);
    case EndIdle => DecidingKeeps(c, s, IdleTimeout, IDLE_TIMEOUT_MESSAGE, None);
    case Beat => BeatingRecords(c, s, fillAt, beatAt);
    case Drop => SameRecordKeeps(c, s, BeginStop(s, CloseSlot));
    case Wait =>
  }

  lemma BlockedRecords(c: Config, s: Run, t: Run, now: real, pending: Option<RunEvent>)
    requires RecordKept(c, s) && PlaceFits(s) && Live(s.place)
    requires match Decided(now, false, BlockedDeadlines(s))
             case Drop => t == BeginStop(s, CloseSlot)
             case EndAtLimit => t == EndWith(s, LimitExceeded, LIMIT_EXCEEDED_MESSAGE, pending)
             case _ => SameRecord(t, s)
    ensures RecordKept(c, t)
  {
    hide RecordKept;
    match Decided(now, false, BlockedDeadlines(s))
    case Drop => SameRecordKeeps(c, s, t);
    case EndAtLimit => DecidingKeeps(c, s, LimitExceeded, LIMIT_EXCEEDED_MESSAGE, pending);
    case _ => SameRecordKeeps(c, s, t);
  }

  lemma PumpKeepsTheRecord(c: Config, s: Run, step: Step)
    requires Enabled(s, step) && (step.Yield? || step.Break? || step.EndPump?)
    requires s.wire.stream.runId.Some?
    requires OneStepAtATime(s) && NoDoubles(s.losses) && RecordKept(c, s)
    ensures RecordKept(c, Next(c, s, step))
  {
    hide RecordKept, Collected, NoDoubles;
    CollectedKeeps(s, step.met);
    SameRecordKeeps(c, s, Next(c, s, step));
  }

  lemma StepKeepsTheRecord(c: Config, s: Run, step: Step)
    requires Enabled(s, step)
    requires s.wire.stream.runId.Some?
    requires PlaceFits(s) && OneStepAtATime(s) && NoDoubles(s.losses) && RecordKept(c, s)
    ensures RecordKept(c, Next(c, s, step))
  {
    hide RecordKept, Looked, Handled, Beaten, Reaped, Yielded, Collected, OneStepAtATime, Decided;
    var t := Next(c, s, step);
    match step
    case Look(now, fillAt, beatAt) => LookingRecords(c, s, now, fillAt, beatAt);
    case PutDown(now, _, _) =>
      if s.slot.frame.None? {
        SameRecordKeeps(c, s, t);
      } else {
        BlockedRecords(c, s, t, now, Some(s.place.frame));
      }
    case Check(now, _) => BlockedRecords(c, s, t, now, None);
    case FinishReap => ReapingRecords(c, s);
    case Yield(_, _) => PumpKeepsTheRecord(c, s, step);
    case Break(_) => PumpKeepsTheRecord(c, s, step);
    case EndPump(_) => PumpKeepsTheRecord(c, s, step);
    case _ => SameRecordKeeps(c, s, t);
  }

  lemma LookingKeepsPlace(c: Config, s: Run, now: real, fillAt: real, beatAt: real)
    requires PlaceFits(s) && OneStepAtATime(s) && s.place.Driving?
    ensures PlaceFits(Looked(c, s, now, fillAt, beatAt)) && OneStepAtATime(Looked(c, s, now, fillAt, beatAt))
  {
    hide Decided, Handled, Beaten;
    match Decided(now, s.outcome.Some?, DeadlinesOf(s))
    case HandleEvent =>
      if s.outcome.Some? {
        HandlingKeepsPlace(c, s);
      }
    case Beat => BeatingKeepsPlace(c, s, fillAt, beatAt);
    case _ =>
  }

  lemma HandlingKeepsPlace(c: Config, s: Run)
    requires PlaceFits(s) && OneStepAtATime(s) && s.place.Driving? && s.outcome.Some?
    ensures PlaceFits(Handled(c, s)) && OneStepAtATime(Handled(c, s))
  {
    FramingKeepsTheTerminal(s.wire, s.outcome.value, c.encode);
    hide FrameFor;
  }

  lemma BeatingKeepsPlace(c: Config, s: Run, fillAt: real, beatAt: real)
    requires PlaceFits(s) && OneStepAtATime(s) && s.place.Driving?
    ensures PlaceFits(Beaten(c, s, fillAt, beatAt)) && OneStepAtATime(Beaten(c, s, fillAt, beatAt))
  {
    SendingKeepsTheDecision(s.wire, Due(s.wire, Heartbeat), c.encode);
    hide Send, Due;
  }

  lemma RunnerKeepsPlace(c: Config, s: Run, step: Step)
    requires Enabled(s, step) && (step.Yield? || step.Break? || step.EndPump?)
    requires s.wire.stream.runId.Some?
    requires PlaceFits(s) && OneStepAtATime(s) && NoDoubles(s.losses)
    ensures PlaceFits(Next(c, s, step)) && OneStepAtATime(Next(c, s, step))
    ensures NoDoubles(Next(c, s, step).losses)
  {
    CollectedKeeps(s, step.met);
    hide Collected, NoDoubles;
  }

  lemma OthersKeepPlace(c: Config, s: Run, step: Step)
    requires Enabled(s, step) && !step.Look? && !step.Yield? && !step.Break? && !step.EndPump?
    requires s.wire.stream.runId.Some?
    requires PlaceFits(s) && OneStepAtATime(s)
    ensures PlaceFits(Next(c, s, step)) && OneStepAtATime(Next(c, s, step))
    ensures Next(c, s, step).losses == s.losses
  {
    hide Looked, Reaped, Delivered, Checked, Filled, Decided, InHand;
    match step
    case PutDown(now, fillAt, beatAt) => DeliveringKeepsPlace(c, s, now, fillAt, beatAt);
    case Check(now, since) => CheckingKeepsPlace(c, s, now, since);
    case FillNext(now, fillAt) => FillingKeepsPlace(c, s, now, fillAt);
    case FinishReap => ReapingKeepsPlace(c, s);
    case _ =>
  }

  lemma DeliveringKeepsPlace(c: Config, s: Run, now: real, fillAt: real, beatAt: real)
    requires PlaceFits(s) && OneStepAtATime(s) && s.place.Delivering?
    ensures var t := Delivered(c, s, now, fillAt, beatAt); PlaceFits(t) && OneStepAtATime(t) && t.losses == s.losses
  {
    hide Decided;
  }

  lemma CheckingKeepsPlace(c: Config, s: Run, now: real, since: real)
    requires PlaceFits(s) && OneStepAtATime(s) && s.place.Checking?
    ensures var t := Checked(c, s, now, since); PlaceFits(t) && OneStepAtATime(t) && t.losses == s.losses
  {
    hide Decided;
  }

  lemma FillingKeepsPlace(c: Config, s: Run, now: real, fillAt: real)
    requires PlaceFits(s) && OneStepAtATime(s) && s.place.Filling?
    ensures var t := Filled(c, s, now, fillAt); PlaceFits(t) && OneStepAtATime(t) && t.losses == s.losses
  {
    hide Decided;
  }

  lemma ReapingKeepsPlace(c: Config, s: Run)
    requires PlaceFits(s) && OneStepAtATime(s) && s.reap.AwaitsPump? && s.pump.PumpDone? && s.wire.stream.runId.Some?
    ensures PlaceFits(Reaped(c, s)) && OneStepAtATime(Reaped(c, s)) && Reaped(c, s).losses == s.losses
  {
    CommittingKeepsTheDecision(s.wire, s.losses != [], c.encode);
    hide Commit, RecordEnding;
  }

  lemma StepKeepsPlace(c: Config, s: Run, step: Step)
    requires Enabled(s, step)
    requires s.wire.stream.runId.Some?
    requires PlaceFits(s) && OneStepAtATime(s) && NoDoubles(s.losses) && RecordKept(c, s)
    ensures PlaceFits(Next(c, s, step)) && OneStepAtATime(Next(c, s, step))
    ensures NoDoubles(Next(c, s, step).losses)
  {
    match step
    case Look(now, fillAt, beatAt) =>
      LookingKeepsPlace(c, s, now, fillAt, beatAt);
      hide PlaceFits, OneStepAtATime, RecordKept, Handled, Send;
    case Yield(_, met) => RunnerKeepsPlace(c, s, step);
    case Break(met) => RunnerKeepsPlace(c, s, step);
    case EndPump(met) => RunnerKeepsPlace(c, s, step);
    case _ => OthersKeepPlace(c, s, step);
  }

  lemma CommittingKeepsTheDecision(w: Writer, lost: bool, encode: Encoder)
    ensures Commit(w, lost, encode).0.decided == w.decided
  {
  }

  lemma LookingKeepsFrames(c: Config, s: Run, now: real, fillAt: real, beatAt: real)
    requires PlaceFits(s) && FramesKept(s) && s.place.Driving? && s.wire.terminal.None?
    ensures FramesKept(Looked(c, s, now, fillAt, beatAt))
  {
    assert s.sent + [] == s.sent && Given(s) == s.sent;
    hide Decided, Handled, Beaten, FramesKept;
    match Decided(now, s.outcome.Some?, DeadlinesOf(s))
    case HandleEvent =>
      if s.outcome.Some? {
        HandlingKeepsFrames(c, s);
      }
    case Beat => BeatingKeepsFrames(c, s, fillAt, beatAt);
    case EndAtLimit => SameFramesKept(s, EndWith(s, LimitExceeded, LIMIT_EXCEEDED_MESSAGE, None));
    case EndIdle => SameFramesKept(s, EndWith(s, IdleTimeout, IDLE_TIMEOUT_MESSAGE, None));
    case Drop => SameFramesKept(s, BeginStop(s, CloseSlot));
    case Wait =>
  }

  lemma HandlingKeepsFrames(c: Config, s: Run)
    requires PlaceFits(s) && FramesKept(s) && s.place.Driving? && s.wire.terminal.None? && s.outcome.Some?
    ensures FramesKept(Handled(c, s))
  {
    FramingKeepsTheTerminal(s.wire, s.outcome.value, c.encode);
    hide FrameFor;
    assert s.sent + [] == s.sent && Given(s) == s.sent;
  }

  lemma BeatingKeepsFrames(c: Config, s: Run, fillAt: real, beatAt: real)
    requires PlaceFits(s) && FramesKept(s) && s.place.Driving? && s.wire.terminal.None?
    ensures FramesKept(Beaten(c, s, fillAt, beatAt))
  {
    hide Send, Due;
    assert s.sent + [] == s.sent && Given(s) == s.sent;
  }

  /** A frame that moves from the hand to the vacant slot stays between what was taken and what is in hand. */
  lemma FillingMovesAFrame(c: Config, s: Run, fillAt: real)
    requires FramesKept(s) && s.place.Filling? && s.place.frames != [] && s.slot.frame.None? && !s.cut
    ensures FramesKept(Fill(c, s, s.place.frames[0], fillAt).(place := Filling(s.place.frames[1..])))
  {
    var t := Fill(c, s, s.place.frames[0], fillAt).(place := Filling(s.place.frames[1..]));
    FirstMoves(s.taken, s.place.frames);
    assert Given(t) + InHand(t) == Given(s) + InHand(s);
  }

  lemma FirstMoves(taken: Trace, frames: Trace)
    requires frames != []
    ensures (taken + [frames[0]]) + frames[1..] == (taken + []) + frames
  {
  }

  lemma FillingKeepsFrames(c: Config, s: Run, now: real, fillAt: real)
    requires PlaceFits(s) && FramesKept(s) && s.place.Filling?
    ensures FramesKept(Filled(c, s, now, fillAt))
  {
    var t := Filled(c, s, now, fillAt);
    if s.place.frames != [] && s.slot.frame.None? {
      FillingMovesAFrame(c, s, fillAt);
      hide FramesKept;
    } else {
      SameFramesKept(s, t);
      hide Decided, FramesKept;
    }
  }

  lemma ReapingKeepsFrames(c: Config, s: Run)
    requires s.wire.stream.runId.Some?
    requires PlaceFits(s) && FramesKept(s) && RecordKept(c, s) && s.reap.AwaitsPump?
    ensures FramesKept(Reaped(c, s))
  {
    hide Commit, RecordEnding, Wrote, Accepted;
  }

  lemma SameFramesKept(s: Run, t: Run)
    requires FramesKept(s) && Given(t) == Given(s) && t.sent == s.sent
    requires s.cut ==> t.cut
    requires !t.cut ==> InHand(t) == InHand(s)
    ensures FramesKept(t)
  {
  }

  predicate MovesNoFrame(step: Step) {
    step.Start? || step.Check? || step.Resume? || step.Interrupt? || step.LeaveUnstarted?
    || step.TakeStep? || step.StartReap?
  }

  lemma OthersKeepFrames(c: Config, s: Run, step: Step)
    requires Enabled(s, step) && MovesNoFrame(step)
    requires s.wire.stream.runId.Some?
    requires PlaceFits(s) && (!s.reap.Finished? ==> s.wire.terminal.None?)
    ensures var t := Next(c, s, step);
            && Given(t) == Given(s) && t.sent == s.sent && (s.cut ==> t.cut)
            && (!t.cut ==> InHand(t) == InHand(s))
  {
    hide Commit, Looked, Reaped, Filled, Delivered, Decided, Collected, Yielded;
  }

  predicate SameFrames(s: Run, t: Run) {
    t.taken == s.taken && t.slot == s.slot && t.sent == s.sent && t.cut == s.cut && t.place == s.place && t.wire == s.wire
  }

  lemma YieldingKeepsFrames(s: Run, outcome: RunnerOutcome, met: seq<Group>)
    requires NoDoubles(s.losses)
    ensures SameFrames(s, Yielded(s, outcome, met))
  {
    CollectedKeeps(s, met);
    hide Collected, NoDoubles;
  }

  lemma PumpKeepsFrames(c: Config, s: Run, step: Step)
    requires Enabled(s, step) && (step.Yield? || step.Break? || step.EndPump?)
    requires s.wire.stream.runId.Some?
    requires NoDoubles(s.losses)
    ensures SameFrames(s, Next(c, s, step))
  {
    CollectedKeeps(s, step.met);
    if step.Yield? {
      YieldingKeepsFrames(s, step.outcome, step.met);
    }
    hide Collected, NoDoubles, Yielded;
  }

  lemma SameFramesAreKept(s: Run, t: Run)
    requires FramesKept(s) && SameFrames(s, t)
    ensures FramesKept(t)
  {
  }

  lemma PuttingDownKeepsFrames(c: Config, s: Run, now: real, fillAt: real, beatAt: real)
    requires s.place.Delivering?
    requires PlaceFits(s) && FramesKept(s) && s.wire.terminal.None?
    ensures FramesKept(Delivered(c, s, now, fillAt, beatAt))
  {
    hide Decided;
    var t := Delivered(c, s, now, fillAt, beatAt);
    if s.slot.frame.Some? {
      SameFramesKept(s, t);
    }
  }

  lemma PumpStepsKeepFrames(c: Config, s: Run, step: Step)
    requires Enabled(s, step) && (step.Yield? || step.Break? || step.EndPump?)
    requires s.wire.stream.runId.Some? && NoDoubles(s.losses) && FramesKept(s)
    ensures FramesKept(Next(c, s, step))
  {
    hide Next, FramesKept, NoDoubles;
    PumpKeepsFrames(c, s, step);
    SameFramesAreKept(s, Next(c, s, step));
  }

  lemma TakingKeepsFrames(s: Run)
    requires FramesKept(s) && (s.slot.frame.Some? || s.slot.closed)
    ensures FramesKept(Taken(s))
  {
    assert s.slot.frame.Some? ==> s.taken + [s.slot.frame.value] + [] == s.taken + [s.slot.frame.value];
    SameFramesKept(s, Taken(s));
    hide FramesKept;
  }

  lemma OtherStepsKeepFrames(c: Config, s: Run, step: Step)
    requires Enabled(s, step) && MovesNoFrame(step)
    requires s.wire.stream.runId.Some?
    requires PlaceFits(s) && FramesKept(s) && (!s.reap.Finished? ==> s.wire.terminal.None?)
    ensures FramesKept(Next(c, s, step))
  {
    hide Next, FramesKept, PlaceFits, InHand, Given;
    OthersKeepFrames(c, s, step);
    SameFramesKept(s, Next(c, s, step));
  }

  lemma SendingStepsKeepFrames(c: Config, s: Run, step: Step)
    requires Enabled(s, step) && (step.Look? || step.FillNext? || step.PutDown? || step.FinishReap? || step.ClientTakes?)
    requires s.wire.stream.runId.Some?
    requires PlaceFits(s) && FramesKept(s) && RecordKept(c, s) && (!s.reap.Finished? ==> s.wire.terminal.None?)
    ensures FramesKept(Next(c, s, step))
  {
    hide FramesKept, RecordKept, Looked, Filled, Delivered, Reaped, Taken;
    match step
    case Look(now, fillAt, beatAt) => LookingKeepsFrames(c, s, now, fillAt, beatAt);
    case FillNext(now, fillAt) => FillingKeepsFrames(c, s, now, fillAt);
    case PutDown(now, fillAt, beatAt) => PuttingDownKeepsFrames(c, s, now, fillAt, beatAt);
    case FinishReap => ReapingKeepsFrames(c, s);
    case ClientTakes => TakingKeepsFrames(s);
  }

  lemma StepKeepsFrames(c: Config, s: Run, step: Step)
    requires Enabled(s, step)
    requires s.wire.stream.runId.Some?
    requires PlaceFits(s) && OneStepAtATime(s) && NoDoubles(s.losses) && RecordKept(c, s) && FramesKept(s)
    ensures FramesKept(Next(c, s, step))
  {
    if !s.reap.Finished? {
      RecordIsOpen(c, s);
    }
    hide Next, RecordKept, OneStepAtATime, NoDoubles, FramesKept, PlaceFits, Enabled;
    if MovesNoFrame(step) {
      OtherStepsKeepFrames(c, s, step);
    } else if step.Yield? || step.Break? || step.EndPump? {
      PumpStepsKeepFrames(c, s, step);
    } else {
      SendingStepsKeepFrames(c, s, step);
    }
  }

  lemma EveryStepKeepsTheInvariant(c: Config, s: Run, step: Step)
    requires Enabled(s, step)
    requires s.wire.stream.runId.Some?
    requires Inv(c, s)
    ensures Inv(c, Next(c, s, step))
    ensures Next(c, s, step).wire.stream.runId.Some?
  {
    StepKeepsTheRecord(c, s, step);
    StepKeepsPlace(c, s, step);
    StepKeepsFrames(c, s, step);
    RunIsKnown(c, Next(c, s, step));
  }
}
