/** What each region of an anchored leader's handle does to the leader and to the kernel, and that the end of every
    leader comes to be announced. */
module AnchoredLeaderCalls {
  import opened Wire
  import opened AnchoredLeaders

  /** The handle makes one more call that names the pid. */
  predicate Calls(l: Leader, t: Leader, byWatcher: bool, signals: bool) {
    t.calls == l.calls + [PidCall(byWatcher, signals, l.status.state, l.kernel)]
  }

  /** A loss: the status says so, the number is given up, and a running leader's end is owed to the caller that met it. */
  predicate Loses(l: Leader, t: Leader, owes: bool) {
    t == l.(status := Status(LOST, l.status.returncode), popenCode := Sentinel, calls := t.calls,
            owed := if owes && l.status.state == RUNNING then l.owed + 1 else l.owed)
  }

  /** A signal goes to the group exactly while the leader is anchored; it is a loss exactly when the leader was reaped
      elsewhere and its number is nobody's. */
  lemma ASignalGoesToAnAnchoredLeader(l: Leader, reused: bool, t: Leader)
    requires Enabled(l, SignalGroup(reused)) && Inv(l) && t == Next(l, SignalGroup(reused))
    ensures l.status.state == RELEASED || l.status.state == LOST ==> t == l
    ensures l.status.state == RUNNING || l.status.state == EXITED ==>
              && Calls(l, t, false, true)
              && if l.kernel == Reaped && !reused then Loses(l, t, true) else t == l.(calls := t.calls)
  {
  }

  /** A release reaps exactly a leader whose exit was published: it is RELEASED with the code the kernel reports, or lost
      when something else reaped it; a running leader, or one that is over, is left alone. */
  lemma AReleaseReapsAnExitedLeader(l: Leader, t: Leader)
    requires Enabled(l, Release) && Inv(l) && t == Next(l, Release)
    ensures l.status.state != EXITED ==> t == l
    ensures l.status.state == EXITED ==>
              && Calls(l, t, false, false)
              && if l.kernel == Reaped then Loses(l, t, false)
                 else l.kernel.Zombie?
                      && t == l.(status := Status(RELEASED, Some(l.kernel.code)), popenCode := Code(Some(l.kernel.code)),
                                 kernel := Reaped, reaps := 1, calls := t.calls)
  {
  }

  /** A start whose watcher could not be launched abandons it, kills and reaps the leader, and keeps its code; only what
      reaps it in between makes that a loss. */
  lemma AFailedStartReapsItsLeader(l: Leader, foreignFirst: bool, code: int, t: Leader)
    requires Enabled(l, LaunchFailed(foreignFirst, code)) && Inv(l) && t == Next(l, LaunchFailed(foreignFirst, code))
    ensures t.ownership == Abandoned && t.watcher == l.watcher && t.owed == l.owed && t.announced == l.announced
    ensures t.status.state == (if l.kernel == Reaped || foreignFirst then LOST else RELEASED)
    ensures t.status.state == RELEASED ==>
              t.reaps == 1 && t.status.returncode == t.exitCode == Some(if l.kernel.Zombie? then l.kernel.code else code)
    ensures t.kernel == Reaped
    ensures |t.calls| == |l.calls| + (if l.kernel == Reaped then 1 else 2)
    ensures t.calls[|l.calls|] == PidCall(false, true, RUNNING, l.kernel)
    ensures l.kernel != Reaped ==> t.calls[|l.calls| + 1] == PidCall(false, false, RUNNING, l.kernel)
  {
  }

  /** The watcher: only one that owns its leader waits, each wait and each look for a stop is a call; an exit it saw is
      committed with the code the kernel reports, a loss as a loss, and a stop sends it back to its wait while the leader
      runs and ends it otherwise. */
  lemma WhatTheWatcherDoes(l: Leader, step: Step, t: Leader)
    requires Enabled(l, step) && Inv(l) && t == Next(l, step)
    ensures match step
            case WatcherReadsDecision => t == l.(watcher := if l.ownership == Owned then AboutToWait else Ended)
            case WatcherWaits => t == l.(watcher := Waiting, calls := t.calls) && Calls(l, t, true, false)
            case WatcherReturns(stopped) =>
              t == l.(watcher := match l.kernel case Alive => SawStop case Zombie(code) => SawExit(code) case Reaped => SawLoss)
            case WatcherReadsState => t == l.(watcher := if l.status.state == RUNNING then AboutToConsume else Ended)
            case WatcherConsumes =>
              t == l.(watcher := if l.kernel == Reaped then SawLoss else AboutToWait, calls := t.calls) && Calls(l, t, true, false)
            case WatcherCommits =>
              if l.status.state != RUNNING then t == l.(watcher := Ended)
              else if l.watcher == SawLoss then Loses(l, t.(watcher := l.watcher), false) && t.watcher == Announcing
              else t == l.(status := Status(EXITED, l.exitCode), watcher := Announcing)
            case WatcherAnnounces => t == l.(watcher := Ended, announced := l.announced + 1)
            case _ => true
  {
  }

  /** What happens around the handle. */
  lemma WhatElseHappens(l: Leader, step: Step, t: Leader)
    requires Enabled(l, step) && t == Next(l, step)
    ensures match step
            case Launched => t == l.(ownership := Owned)
            case CallerAnnounces => l.owed > 0 && t == l.(owed := l.owed - 1, announced := l.announced + 1)
            case LeaderExits(code) => t == l.(kernel := Zombie(code), exitCode := Some(code))
            case SomethingElseReaps => l.kernel.Zombie? && t == l.(kernel := Reaped, foreignReap := true)
            case _ => true
  {
  }

  // ---------------------------------------------------------------- the end is announced

  /** The next step of a watcher that has not ended. */
  function NextOfWatcher(l: Leader): Step {
    match l.watcher
    case AwaitsDecision => WatcherReadsDecision
    case AboutToWait => WatcherWaits
    case Waiting => WatcherReturns(l.kernel.Alive?)
    case SawExit(_) => WatcherCommits
    case SawStop => WatcherReadsState
    case AboutToConsume => WatcherConsumes
    case SawLoss => WatcherCommits
    case Announcing => WatcherAnnounces
    case Ended => CallerAnnounces
  }

  /** How far the watcher of a leader that has exited is from its end. */
  function ToTheEnd(w: Watcher): nat {
    match w
    case SawStop => 8 case AboutToConsume => 7 case AwaitsDecision => 6 case AboutToWait => 5 case Waiting => 4
    case SawExit(_) => 3 case SawLoss => 2 case Announcing => 1 case Ended => 0
  }

  predicate ByWatcher(step: Step) {
    step.WatcherReadsDecision? || step.WatcherWaits? || step.WatcherReturns? || step.WatcherReadsState?
    || step.WatcherConsumes? || step.WatcherCommits? || step.WatcherAnnounces?
  }

  /** Once a leader has exited, its watcher is never stuck and each of its steps, and no other one, brings its end
      nearer; at its end the leader does not run any more, and what is announced is announced by then, unless a caller
      that met the loss still owes it. */
  lemma TheEndIsAnnouncedInTheEnd(l: Leader, step: Step)
    requires Inv(l) && l.ownership == Owned && l.kernel != Alive
    ensures l.watcher != Ended ==> ByWatcher(NextOfWatcher(l)) && Enabled(l, NextOfWatcher(l))
    ensures Enabled(l, step) && ByWatcher(step) ==> ToTheEnd(Next(l, step).watcher) < ToTheEnd(l.watcher)
    ensures Enabled(l, step) && !ByWatcher(step) ==> Next(l, step).watcher == l.watcher
    ensures Enabled(l, step) ==> Next(l, step).kernel != Alive && Next(l, step).ownership == Owned
    ensures l.watcher == Ended ==> l.status.state != RUNNING && l.announced + l.owed == 1
  {
  }
}
