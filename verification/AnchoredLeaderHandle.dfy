/** The handle of an anchored leader (src/agent_runtime/spawn.py:414-626), one method per region that holds
    the lifecycle lock; the kernel's answer is a parameter that fits the kernel's side of the machine. */
module AnchoredLeaderHandles {
  import opened Wire
  import opened AnchoredLeaders

  datatype ReapAnswer = Reports(code: int) | NothingReaped | NoChild

  /** What `killpg` answers: the signal was sent, there is no such group, or some other error. */
  datatype SignalAnswer = Delivered | NoProcess | Refused

  datatype Outcome = Done | StateError | IdentityLost | SystemError

  /** The signal met a process, be it one that got the number after the leader was reaped. */
  predicate Reused(k: Kernel, answer: SignalAnswer) {
    !answer.NoProcess? && k.Reaped?
  }

  predicate ReapAnswers(k: Kernel, answer: ReapAnswer) {
    match k
    case Alive => answer.NothingReaped?
    case Zombie(code) => answer == Reports(code)
    case Reaped => answer.NoChild?
  }

  class AnchoredLeader {
    var status: Status
    var popenCode: PopenCode
    ghost var run: Leader

    ghost predicate Valid()
      reads this
    {
      run.status == status && run.popenCode == popenCode && Inv(run)
    }

    constructor ()
      ensures Valid() && run == JUST_STARTED
    {
      hide Inv;
      StartedLeadersAreSound();
      status, popenCode, run := STARTED, Unset, JUST_STARTED;
    }

    /** The one write of the status; a last state also writes what keeps `Popen` from waiting. */
    method Apply(e: LeaderEvent) returns (announces: bool)
      modifies this`status, this`popenCode
      ensures status == Advance(old(status), e).status && announces == Advance(old(status), e).announces
      ensures popenCode == if status.state.LOST? then Sentinel
                           else if status.state.RELEASED? then Code(status.returncode) else old(popenCode)
    {
      var transition := Advance(status, e);
      if transition.status.state.LOST? {
        popenCode := Sentinel;
      } else if transition.status.state.RELEASED? {
        popenCode := Code(transition.status.returncode);
      }
      status := transition.status;
      announces := transition.announces;
    }

    /** The watcher's last act on the pid; the caller announces after the lock is released. */
    method Commit(e: LeaderEvent) returns (announces: bool)
      requires Valid() && (if run.watcher.SawExit? then e == LeaderExited(run.watcher.code)
                           else run.watcher.SawLoss? && e == LeaderGone)
      modifies this
      ensures Valid() && run == Next(old(run), WatcherCommits)
      ensures announces <==> run.watcher.Announcing?
    {
      EveryStepKeepsTheInvariant(run, WatcherCommits);
      run := Next(run, WatcherCommits);
      announces := Apply(e);
    }

    /** Reaps only a leader whose exit was published; concurrent releases reap once. */
    method Release(answer: ReapAnswer) returns (outcome: Outcome)
      requires Valid() && run.ownership.Owned? && ReapAnswers(run.kernel, answer)
      modifies this
      ensures Valid() && run == Next(old(run), Step.Release)
      ensures outcome == match old(status.state)
                         case RUNNING => StateError
                         case LOST => IdentityLost
                         case RELEASED => Done
                         case EXITED => if old(run).foreignReap then IdentityLost else Done
      ensures outcome == Done ==> status.state.RELEASED?
    {
      EveryStepKeepsTheInvariant(run, Step.Release);
      run := Next(run, Step.Release);
      match status.state
      case LOST => outcome := IdentityLost;
      case RELEASED => outcome := Done;
      case RUNNING => outcome := StateError;
      case EXITED =>
        var e := match answer case Reports(code) => LeaderReaped(code) case NothingReaped => LeaderNotReaped case NoChild => LeaderGone;
        var _ := Apply(e);
        outcome := if e.LeaderNotReaped? then StateError else if e.LeaderGone? then IdentityLost else Done;
    }

    /** Sends a signal to the group, only while the leader is anchored; None when it was sent. A loss is committed
        and its announcement is the caller's; any other error leaves the handle as it was. */
    method SignalGroup(answer: SignalAnswer) returns (refused: Option<Outcome>, announces: bool)
      requires Valid() && run.ownership.Owned? && (answer.NoProcess? ==> run.kernel.Reaped?)
      modifies this
      ensures Valid() && run == Next(old(run), Step.SignalGroup(Reused(old(run).kernel, answer)))
      ensures refused == if old(status.state).RELEASED? then Some(StateError)
                         else if old(status.state).LOST? then Some(IdentityLost)
                         else match answer
                           case Delivered => None
                           case NoProcess => Some(IdentityLost)
                           case Refused => Some(SystemError)
      ensures !Anchored(old(status.state)) || !answer.NoProcess? ==> status == old(status) && popenCode == old(popenCode)
      ensures announces <==> old(status.state).RUNNING? && answer.NoProcess?
      ensures run.owed == old(run).owed + if announces then 1 else 0
    {
      ghost var step := Step.SignalGroup(Reused(run.kernel, answer));
      EveryStepKeepsTheInvariant(run, step);
      run := Next(run, step);
      announces := false;
      if status.state.RELEASED? {
        return Some(StateError), false;
      }
      if status.state.LOST? {
        return Some(IdentityLost), false;
      }
      match answer
      case Delivered => refused := None;
      case Refused => refused := Some(SystemError);
      case NoProcess =>
        announces := Apply(LeaderGone);
        refused := Some(IdentityLost);
    }

    /** A kill and a count in one hold of the lock: a count is returned only when the kill was sent, and it may
        raise itself, which is None here. */
    method KillAndCensus<C>(answer: SignalAnswer, census: Option<C>) returns (counted: Option<C>, announces: bool)
      requires Valid() && run.ownership.Owned? && (answer.NoProcess? ==> run.kernel.Reaped?)
      modifies this
      ensures Valid() && run == Next(old(run), Step.SignalGroup(Reused(old(run).kernel, answer)))
      ensures counted == if answer.Delivered? && Anchored(old(status.state)) then census else None
      ensures announces <==> old(status.state).RUNNING? && answer.NoProcess?
    {
      var refused, owes := SignalGroup(answer);
      counted := if refused.None? then census else None;
      announces := owes;
    }

    /** The rollback of a start whose watcher could not be launched; nobody announces it. */
    method KillAndReap(found: bool, reaped: bool, code: int) returns (lost: bool)
      requires Valid() && run.ownership.Pending?
      requires found <==> !run.kernel.Reaped?
      requires run.kernel.Zombie? ==> code == run.kernel.code
      modifies this
      ensures Valid() && run == Next(old(run), LaunchFailed(!reaped, code))
      ensures lost <==> !(found && reaped)
      ensures status.state == if lost then LOST else RELEASED
    {
      EveryStepKeepsTheInvariant(run, LaunchFailed(!reaped, code));
      run := Next(run, LaunchFailed(!reaped, code));
      var e := if found && reaped then LeaderReaped(code) else LeaderGone;
      var _ := Apply(e);
      lost := e.LeaderGone?;
    }
  }
}
