/** An anchored leader (src/agent_runtime/spawn.py:195-626): a child whose exit only its own handle observes,
    with a watcher thread, a lifecycle lock, and a small model of the kernel's side of the process.

    A region that holds the lock is one step; the watcher's kernel calls, which it makes outside the
    lock, are steps of their own, and a blocking call is two: its start and its return. */
module AnchoredLeaders {
  import opened Wire

  datatype State = RUNNING | EXITED | RELEASED | LOST

  datatype Status = Status(state: State, returncode: Option<int>)

  datatype LeaderEvent = LeaderExited(code: int) | LeaderStopped | LeaderReaped(code: int) | LeaderNotReaped | LeaderGone

  datatype Transition = Transition(status: Status, announces: bool)

  const STARTED := Status(RUNNING, None)

  predicate Anchored(state: State) {
    state.RUNNING? || state.EXITED?
  }

  /** The whole lifecycle: one transition per status and event. */
  function Advance(s: Status, e: LeaderEvent): Transition {
    match (s.state, e)
    case (RUNNING, LeaderExited(code)) => Transition(Status(EXITED, Some(code)), true)
    case (RUNNING, LeaderReaped(code)) => Transition(Status(RELEASED, Some(code)), true)
    case (RUNNING, LeaderGone) => Transition(Status(LOST, None), true)
    case (EXITED, LeaderReaped(code)) => Transition(Status(RELEASED, Some(code)), false)
    case (EXITED, LeaderGone) => Transition(Status(LOST, s.returncode), false)
    case _ => Transition(s, false)
  }

  function AdvancedBy(s: Status, events: seq<LeaderEvent>): Status
    decreases |events|
  {
    if events == [] then s else AdvancedBy(Advance(s, events[0]).status, events[1..])
  }

  function Announcements(s: Status, events: seq<LeaderEvent>): nat
    decreases |events|
  {
    if events == [] then 0
    else (if Advance(s, events[0]).announces then 1 else 0) + Announcements(Advance(s, events[0]).status, events[1..])
  }

  /** On every sequence of events: the end is announced exactly once, when the state leaves RUNNING;
      the last two states absorb what comes; and a return code comes only from an exit or a reap. */
  lemma {:induction false} LifecycleLaws(s: Status, events: seq<LeaderEvent>)
    ensures var t := AdvancedBy(s, events);
            && Announcements(s, events) == (if s.state.RUNNING? && !t.state.RUNNING? then 1 else 0)
            && (!Anchored(s.state) ==> t == s)
            && (s.state.EXITED? ==> !t.state.RUNNING?)
            && (s == STARTED && t.returncode.Some? ==>
                exists k :: 0 <= k < |events| && events[k] in {LeaderExited(t.returncode.value), LeaderReaped(t.returncode.value)})
    decreases |events|
  {
    if events != [] {
      var u := Advance(s, events[0]).status;
      LifecycleLaws(u, events[1..]);
      if s == STARTED && AdvancedBy(s, events).returncode.Some? {
        ReturnCodesAreReported(s, events);
      }
    }
  }

  lemma {:induction false} ReturnCodesAreReported(s: Status, events: seq<LeaderEvent>)
    requires AdvancedBy(s, events).returncode.Some? && AdvancedBy(s, events).returncode != s.returncode
    ensures var code := AdvancedBy(s, events).returncode.value;
            exists k :: 0 <= k < |events| && events[k] in {LeaderExited(code), LeaderReaped(code)}
    decreases |events|
  {
    var code := AdvancedBy(s, events).returncode.value;
    var u := Advance(s, events[0]).status;
    if u.returncode == Some(code) {
      assert events[0] in {LeaderExited(code), LeaderReaped(code)};
    } else {
      ReturnCodesAreReported(u, events[1..]);
      var k :| 0 <= k < |events[1..]| && events[1..][k] in {LeaderExited(code), LeaderReaped(code)};
      assert events[k + 1] == events[1..][k];
    }
  }

  // ---------------------------------------------------------------- the machine

  /** The kernel's side of the leader's number. Once reaped, the number may name another process. */
  datatype Kernel = Alive | Zombie(code: int) | Reaped

  datatype Ownership = Pending | Owned | Abandoned

  /** Where the watcher is; the last two hold what its commit owes. */
  datatype Watcher =
    | AwaitsDecision | AboutToWait | Waiting | SawExit(code: int) | SawStop | AboutToConsume | SawLoss
    | Announcing | Ended

  /** A kernel call that names the leader's pid or group, and what held when it was made. */
  datatype PidCall = PidCall(byWatcher: bool, signals: bool, state: State, kernel: Kernel)

  /** What `Popen.returncode` holds: nothing yet, a code, or the sentinel of a lost child. */
  datatype PopenCode = Unset | Code(code: Option<int>) | Sentinel

  datatype Leader = Leader(
    status: Status, popenCode: PopenCode, ownership: Ownership, watcher: Watcher,
    kernel: Kernel, foreignReap: bool, exitCode: Option<int>,
    calls: seq<PidCall>, reaps: nat, owed: nat, announced: nat)

  /** A child was started; its watcher waits for the start's decision. */
  const JUST_STARTED := Leader(STARTED, Unset, Pending, AwaitsDecision, Alive, false, None, [], 0, 0, 0)

  datatype Step =
    | Launched
    | LaunchFailed(foreignFirst: bool, code: int)
    | WatcherReadsDecision
    | WatcherWaits
    | WatcherReturns(stopped: bool)
    | WatcherReadsState
    | WatcherConsumes
    | WatcherCommits
    | WatcherAnnounces
    | Release
    | SignalGroup(reused: bool)
    | CallerAnnounces
    | LeaderExits(code: int)
    | SomethingElseReaps

  predicate Enabled(l: Leader, step: Step) {
    match step
    case Launched => l.ownership.Pending?
    case LaunchFailed(_, _) => l.ownership.Pending?
    case WatcherReadsDecision => l.watcher.AwaitsDecision? && !l.ownership.Pending?
    case WatcherWaits => l.watcher.AboutToWait?
    case WatcherReturns(stopped) => l.watcher.Waiting? && (if stopped then l.kernel.Alive? else !l.kernel.Alive?)
    case WatcherReadsState => l.watcher.SawStop?
    case WatcherConsumes => l.watcher.AboutToConsume?
    case WatcherCommits => l.watcher.SawExit? || l.watcher.SawLoss?
    case WatcherAnnounces => l.watcher.Announcing?
    case Release => l.ownership.Owned?
    case SignalGroup(reused) => l.ownership.Owned? && (reused ==> l.kernel.Reaped?)
    case CallerAnnounces => l.owed > 0
    case LeaderExits(_) => l.kernel.Alive?
    case SomethingElseReaps => l.kernel.Zombie?
  }

  /** A call that names the pid, at the moment it is made. */
  function Called(l: Leader, byWatcher: bool, signals: bool): Leader {
    l.(calls := l.calls + [PidCall(byWatcher, signals, l.status.state, l.kernel)])
  }

  function Applied(l: Leader, e: LeaderEvent): Leader {
    var status := Advance(l.status, e).status;
    l.(status := status,
       popenCode := if status.state.LOST? then Sentinel else if status.state.RELEASED? then Code(status.returncode)
                    else l.popenCode)
  }

  /** The reap of an exited leader: the handle's own, unless something else was first. */
  function ReapedNow(l: Leader): Leader {
    if l.kernel.Zombie? then Applied(l.(kernel := Reaped, reaps := l.reaps + 1), LeaderReaped(l.kernel.code))
    else if l.kernel.Reaped? then Applied(l, LeaderGone)
    else Applied(l, LeaderNotReaped)
  }

  function Released(l: Leader): Leader {
    if l.status.state.EXITED? then ReapedNow(Called(l, false, false)) else l
  }

  /** A signal to the group, only while the leader is anchored; what meets no process is a loss. */
  function Signalled(l: Leader, reused: bool): Leader {
    if !Anchored(l.status.state) then l
    else
      var called := Called(l, false, true);
      if l.kernel.Reaped? && !reused
      then Applied(called, LeaderGone).(owed := l.owed + if l.status.state.RUNNING? then 1 else 0)
      else called
  }

  /** The rollback of a start whose watcher could not be launched: the watcher is abandoned first, then
      the group is killed and the leader reaped, unless something else reaps it in between. */
  function RolledBack(l: Leader, foreignFirst: bool, code: int): Leader {
    var abandoned := Called(Called(l.(ownership := Abandoned), false, true), false, false);
    if l.kernel.Reaped? then Applied(Called(l.(ownership := Abandoned), false, true), LeaderGone)
    else
      var exit := if l.kernel.Zombie? then l.kernel.code else code;
      var dead := abandoned.(kernel := Reaped, exitCode := Some(exit));
      if foreignFirst then Applied(dead.(foreignReap := true), LeaderGone)
      else Applied(dead.(reaps := l.reaps + 1), LeaderReaped(exit))
  }

  function Next(l: Leader, step: Step): Leader
    requires Enabled(l, step)
  {
    match step
    case Launched => l.(ownership := Owned)
    case LaunchFailed(foreignFirst, code) => RolledBack(l, foreignFirst, code)
    case WatcherReadsDecision => l.(watcher := if l.ownership.Owned? then AboutToWait else Ended)
    case WatcherWaits => Called(l, true, false).(watcher := Waiting)
    case WatcherReturns(stopped) =>
      l.(watcher := if stopped then SawStop else if l.kernel.Zombie? then SawExit(l.kernel.code) else SawLoss)
    case WatcherReadsState => l.(watcher := if l.status.state.RUNNING? then AboutToConsume else Ended)
    case WatcherConsumes => Called(l, true, false).(watcher := if l.kernel.Reaped? then SawLoss else AboutToWait)
    case WatcherCommits =>
      var e := if l.watcher.SawExit? then LeaderExited(l.watcher.code) else LeaderGone;
      Applied(l, e).(watcher := if Advance(l.status, e).announces then Announcing else Ended)
    case WatcherAnnounces => l.(watcher := Ended, announced := l.announced + 1)
    case Release => Released(l)
    case SignalGroup(reused) => Signalled(l, reused)
    case CallerAnnounces => l.(owed := l.owed - 1, announced := l.announced + 1)
    case LeaderExits(code) => l.(kernel := Zombie(code), exitCode := Some(code))
    case SomethingElseReaps => l.(kernel := Reaped, foreignReap := true)
  }

  // ---------------------------------------------------------------- the invariant

  predicate WatcherActs(w: Watcher) {
    !w.AwaitsDecision? && !w.Announcing? && !w.Ended?
  }

  function OwedByWatcher(w: Watcher): nat {
    if w.Announcing? then 1 else 0
  }

  /** The watcher acts on the pid only as the owner of a leader that is RUNNING or lost. */
  predicate WatcherFits(l: Leader) {
    && (WatcherActs(l.watcher) || l.watcher.Announcing? ==> l.ownership.Owned?)
    && (WatcherActs(l.watcher) || (l.ownership.Owned? && l.watcher.AwaitsDecision?) ==>
          l.status.state.RUNNING? || l.status.state.LOST?)
    && (l.watcher.SawExit? ==> l.exitCode == Some(l.watcher.code))
    && (l.watcher.SawLoss? ==> l.kernel.Reaped?)
    && ((l.watcher.Ended? || l.watcher.Announcing?) && l.ownership.Owned? ==> !l.status.state.RUNNING?)
    && (l.ownership.Pending? ==> l.watcher.AwaitsDecision? && l.status.state.RUNNING?)
  }

  /** The status tells the kernel's side: an exited leader is a zombie until something reaps it. */
  predicate KernelFits(l: Leader) {
    && (l.kernel.Alive? <==> l.exitCode.None?)
    && (l.kernel.Zombie? ==> l.exitCode == Some(l.kernel.code))
    && (l.status.state.EXITED? || l.status.state.RELEASED? ==> l.exitCode.Some? && l.status.returncode == l.exitCode)
    && (l.status.state.RUNNING? ==> l.status.returncode.None?)
    && (l.status.state.LOST? ==> l.status.returncode.None? || l.status.returncode == l.exitCode)
    && (l.status.state.RELEASED? ==> l.kernel.Reaped?)
    && l.reaps == (if l.status.state.RELEASED? then 1 else 0)
    && (l.kernel.Reaped? <==> l.foreignReap || l.reaps > 0)
    && (l.status.state.LOST? ==> l.foreignReap)
    && (l.reaps > 0 ==> !l.foreignReap)
    && l.popenCode == (if Anchored(l.status.state) then Unset
                       else if l.status.state.LOST? then Sentinel else Code(l.status.returncode))
  }

  /** The end is announced once: done, or owed by the one that committed it. */
  predicate AnnouncedOnce(l: Leader) {
    l.announced + l.owed + OwedByWatcher(l.watcher)
      == (if l.ownership.Owned? && !l.status.state.RUNNING? then 1 else 0)
  }

  /** Every call that named the pid was made while the handle held the number, or by its watcher before
      any release; none of a released one, and none of an abandoned watcher. */
  predicate CallsFit(l: Leader) {
    forall i :: 0 <= i < |l.calls| ==>
      && !l.calls[i].state.RELEASED?
      && (l.calls[i].byWatcher ==> l.ownership.Owned? && (l.calls[i].state.RUNNING? || l.calls[i].state.LOST?))
      && (!l.calls[i].byWatcher ==> Anchored(l.calls[i].state))
      && (l.calls[i].kernel.Reaped? ==> l.foreignReap)
  }

  predicate Inv(l: Leader) {
    WatcherFits(l) && KernelFits(l) && AnnouncedOnce(l) && CallsFit(l)
  }

  lemma StepKeepsTheWatcher(l: Leader, step: Step)
    requires Enabled(l, step) && WatcherFits(l) && KernelFits(l)
    ensures WatcherFits(Next(l, step))
  {
  }

  lemma RollingBackFits(l: Leader, foreignFirst: bool, code: int)
    requires l.status.state.RUNNING? && KernelFits(l)
    ensures KernelFits(RolledBack(l, foreignFirst, code))
  {
  }

  lemma ReleasingFits(l: Leader)
    requires KernelFits(l)
    ensures KernelFits(Released(l))
  {
  }

  lemma SignallingFits(l: Leader, reused: bool)
    requires KernelFits(l)
    ensures KernelFits(Signalled(l, reused))
  {
  }

  lemma StepKeepsTheKernel(l: Leader, step: Step)
    requires Enabled(l, step) && WatcherFits(l) && KernelFits(l)
    ensures KernelFits(Next(l, step))
  {
    hide RolledBack, Released, Signalled;
    match step {
      case LaunchFailed(foreignFirst, code) => RollingBackFits(l, foreignFirst, code);
      case Release => ReleasingFits(l);
      case SignalGroup(reused) => SignallingFits(l, reused);
      case _ =>
    }
  }

  lemma StepAnnouncesOnce(l: Leader, step: Step)
    requires Enabled(l, step) && WatcherFits(l) && KernelFits(l) && AnnouncedOnce(l)
    ensures AnnouncedOnce(Next(l, step))
  {
  }

  /** What the handle's own calls add to the log. */
  lemma CallerStepsFit(l: Leader, step: Step)
    requires Enabled(l, step) && WatcherFits(l) && KernelFits(l) && CallsFit(l)
    requires step.LaunchFailed? || step.Release? || step.SignalGroup?
    ensures CallsFit(Next(l, step))
  {
  }

  lemma StepKeepsTheCalls(l: Leader, step: Step)
    requires Enabled(l, step) && WatcherFits(l) && KernelFits(l) && CallsFit(l)
    ensures CallsFit(Next(l, step))
  {
    hide RolledBack, Released, Signalled;
    if step.LaunchFailed? || step.Release? || step.SignalGroup? {
      CallerStepsFit(l, step);
    }
  }

  lemma EveryStepKeepsTheInvariant(l: Leader, step: Step)
    requires Enabled(l, step) && Inv(l)
    ensures Inv(Next(l, step))
  {
    StepKeepsTheWatcher(l, step);
    StepKeepsTheKernel(l, step);
    StepAnnouncesOnce(l, step);
    StepKeepsTheCalls(l, step);
  }

  // ---------------------------------------------------------------- over every run

  predicate Possible(l: Leader, steps: seq<Step>)
    decreases |steps|
  {
    steps == [] || (Enabled(l, steps[0]) && Possible(Next(l, steps[0]), steps[1..]))
  }

  function After(l: Leader, steps: seq<Step>): Leader
    requires Possible(l, steps)
    decreases |steps|
  {
    if steps == [] then l else After(Next(l, steps[0]), steps[1..])
  }

  lemma {:induction false} RunsKeepTheInvariant(l: Leader, steps: seq<Step>)
    requires Possible(l, steps) && Inv(l)
    ensures Inv(After(l, steps))
    decreases |steps|
  {
    if steps != [] {
      EveryStepKeepsTheInvariant(l, steps[0]);
      hide Inv, Next, Enabled;
      RunsKeepTheInvariant(Next(l, steps[0]), steps[1..]);
    }
  }

  lemma StartedLeadersAreSound()
    ensures Inv(JUST_STARTED)
  {
  }

  /** The handle reaps its leader at most once, exactly when it is RELEASED, and then with the code the
      kernel reported; while it is anchored and nothing else reaped it, the number is still its own. */
  lemma TheLeaderIsReapedOnce(first: Leader, steps: seq<Step>)
    requires Inv(first) && Possible(first, steps)
    ensures var l := After(first, steps);
            && l.reaps <= 1 && (l.reaps == 1 <==> l.status.state.RELEASED?)
            && (l.status.state.RELEASED? ==> l.exitCode.Some? && l.status.returncode == l.exitCode
                                             && l.popenCode == Code(l.exitCode))
            && (Anchored(l.status.state) && !l.foreignReap ==> !l.kernel.Reaped?)
            && (l.status.state.LOST? ==> l.foreignReap && l.popenCode == Sentinel)
  {
    hide Possible, After, Next, Enabled;
    RunsKeepTheInvariant(first, steps);
  }

  /** No kernel call names the pid of a released leader, an abandoned watcher makes none at all, and
      without a foreign reap every call names the leader itself. */
  lemma EveryCallNamesTheLeader(first: Leader, steps: seq<Step>, i: nat)
    requires Inv(first) && Possible(first, steps) && i < |After(first, steps).calls|
    ensures var l := After(first, steps);
            var call := l.calls[i];
            && !call.state.RELEASED?
            && (!l.ownership.Owned? ==> !call.byWatcher)
            && (!call.byWatcher ==> Anchored(call.state))
            && (!l.foreignReap ==> !call.kernel.Reaped?)
  {
    hide Possible, After, Next, Enabled;
    RunsKeepTheInvariant(first, steps);
  }

  /** The exit or the loss is announced exactly once, when the state leaves RUNNING: it was announced,
      or its announcement is owed by the watcher or by the one call that met the loss. */
  lemma TheEndIsAnnouncedOnce(first: Leader, steps: seq<Step>)
    requires Inv(first) && Possible(first, steps)
    ensures var l := After(first, steps);
            && l.announced <= 1
            && (l.announced == 1 ==> !l.status.state.RUNNING?)
            && (l.ownership.Owned? && !l.status.state.RUNNING? && l.watcher.Ended? && l.owed == 0 ==> l.announced == 1)
  {
    hide Possible, After, Next, Enabled;
    RunsKeepTheInvariant(first, steps);
  }

  /** The certificate that the handle is done with its pid. */
  predicate DoneWithPid(l: Leader) {
    !Anchored(l.status.state) && l.watcher.Ended?
  }

  /** Whatever happens later: the last states stay, a released leader's number is never named again by
      its handle, and a handle that is done with its pid makes no call any more. */
  lemma {:induction false} WhatIsOverStaysOver(l: Leader, steps: seq<Step>)
    requires Possible(l, steps) && Inv(l)
    ensures var t := After(l, steps);
            && l.calls <= t.calls && l.announced <= t.announced
            && (!Anchored(l.status.state) ==> t.status == l.status && t.reaps == l.reaps)
            && (l.status.state.RELEASED? || DoneWithPid(l) ==> t.calls == l.calls)
            && (DoneWithPid(l) ==> DoneWithPid(t))
    decreases |steps|
  {
    if steps != [] {
      var u := Next(l, steps[0]);
      EveryStepKeepsTheInvariant(l, steps[0]);
      OneStepKeepsWhatIsOver(l, steps[0]);
      hide Inv, Next, Enabled, DoneWithPid;
      WhatIsOverStaysOver(u, steps[1..]);
    }
  }

  lemma OneStepKeepsWhatIsOver(l: Leader, step: Step)
    requires Enabled(l, step) && WatcherFits(l)
    ensures var t := Next(l, step);
            && l.calls <= t.calls && l.announced <= t.announced
            && (!Anchored(l.status.state) ==> t.status == l.status && t.reaps == l.reaps)
            && (l.status.state.RELEASED? || DoneWithPid(l) ==> t.calls == l.calls)
            && (l.status.state.RELEASED? ==> t.status.state.RELEASED?)
            && (DoneWithPid(l) ==> DoneWithPid(t))
  {
  }

  /** The kernel never leaves an exited leader unreaped: a release of one succeeds or meets a loss. */
  lemma ReleasesReapOrLose(l: Leader)
    requires Inv(l) && l.status.state.EXITED?
    ensures Released(l).status.state == if l.foreignReap then LOST else RELEASED
    ensures Released(Released(l)) == Released(l)
  {
  }
}
