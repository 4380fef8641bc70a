/** A retained group's entry as the registry updates it under its lock (src/agent_runtime/lost_groups.py:66-178). */
module LostGroupEntries {
  import opened Wire
  import opened LostGroups

  class Attempt {
    var holders: int
    ghost const call: CallId

    constructor (ghost call: CallId)
      ensures holders == 1 && this.call == call
    {
      holders := 1;
      this.call := call;
    }
  }

  class LostGroup {
    var known: bool
    var leaderReleased: bool
    var attempt: Attempt?
    ghost var run: Retention

    ghost predicate Valid()
      reads this, attempt
    {
      && Inv(run) && known == run.present && leaderReleased == run.flag
      && (attempt == null ==> run.attempt == None)
      && (attempt != null ==> run.attempt == Some(attempt.call) && attempt.call in run.calls
                              && attempt.holders == run.calls[attempt.call].holders)
    }

    constructor ()
      ensures Valid() && run == RETAINED && attempt == null
    {
      known, leaderReleased, attempt, run := true, false, null, RETAINED;
      new;
      RetainedIsSound();
    }

    /** One hold of the registry lock: the entry is unknown, or has an attempt, or gets one. */
    method BeginAttempt(ghost c: CallId) returns (answered: Option<Answer>)
      requires Valid() && c !in run.calls
      modifies this
      ensures Valid() && run == Next(old(run), Begin(c))
      ensures answered == if !old(known) then Some(Gone) else if old(attempt) != null then Some(NotGone) else None
      ensures answered.None? ==> fresh(attempt) && attempt.call == c
      ensures answered.Some? ==> attempt == old(attempt)
    {
      EveryStepKeepsTheInvariant(run, Begin(c));
      run := Next(run, Begin(c));
      if !known {
        return Some(Gone);
      }
      if attempt != null {
        return Some(NotGone);
      }
      attempt := new Attempt(c);
      answered := None;
    }

    /** The worker is counted as a holder before its thread is started. */
    method Try(ghost c: CallId) returns (alreadyReleased: bool)
      requires Valid() && Enabled(run, Step.Try(c)) && run.attempt == Some(c)
      modifies this, attempt
      ensures Valid() && attempt == old(attempt) && run == Next(old(run), Step.Try(c))
      ensures alreadyReleased == old(leaderReleased)
    {
      EveryStepKeepsTheInvariant(run, Step.Try(c));
      run := Next(run, Step.Try(c));
      alreadyReleased := leaderReleased;
      if !leaderReleased {
        attempt.holders := attempt.holders + 1;
      }
    }

    /** A holder leaves under the lock; the exclusion ends with the last one. */
    method LeaveAttempt(ghost step: Step)
      requires Valid() && Enabled(run, step) && run.attempt == Some(step.c)
      requires step.Leave? || step.WorkerLeaves?
               || (step.StartReturns? && step.raised && run.calls[step.c].worker.Unclaimed?)
      modifies this, attempt
      ensures Valid() && run == Next(old(run), step)
      ensures attempt == null <==> old(attempt.holders) == 1
    {
      EveryStepKeepsTheInvariant(run, step);
      run := Next(run, step);
      attempt.holders := attempt.holders - 1;
      if attempt.holders == 0 {
        attempt := null;
      }
    }

    method WriteFlag(ghost c: CallId)
      requires Valid() && Enabled(run, Step.WriteFlag(c)) && run.attempt == Some(c)
      modifies this
      ensures Valid() && run == Next(old(run), Step.WriteFlag(c))
    {
      hide Inv, Next, Enabled;
      EveryStepKeepsTheInvariant(run, Step.WriteFlag(c));
      HolderStays(run, Step.WriteFlag(c));
      run := Next(run, Step.WriteFlag(c));
      leaderReleased := true;
    }

    method Remove(ghost c: CallId)
      requires Valid() && Enabled(run, Step.Remove(c)) && run.attempt == Some(c)
      modifies this
      ensures Valid() && run == Next(old(run), Step.Remove(c)) && !known
    {
      hide Inv, Next, Enabled;
      EveryStepKeepsTheInvariant(run, Step.Remove(c));
      HolderStays(run, Step.Remove(c));
      run := Next(run, Step.Remove(c));
      known := false;
    }
  }

  lemma HolderStays(r: Retention, step: Step)
    requires Enabled(r, step) && Inv(r) && r.attempt == Some(step.c) && (step.WriteFlag? || step.Remove?)
    ensures var t := Next(r, step);
            && t.attempt == r.attempt && step.c in t.calls && t.calls[step.c].holders == r.calls[step.c].holders
            && t.flag == (r.flag || step.WriteFlag?) && t.present == (r.present && !step.Remove?)
  {
    assert r.calls[step.c].holders > 0;
    hide Progress, HoldersFit;
  }
}
