/** When a place comes free: a run is admitted whenever one is, and no place is lost with a run that ended and whose
    groups have all answered that they are gone. */
module QuarantineEndings {
  import opened Wire
  import opened Quarantines

  /** A run is admitted, with a lease of its own, exactly while a place is free; otherwise nothing changes. */
  lemma ARunIsAdmittedWhileAPlaceIsFree(h: House, run: RunId, t: House)
    requires Inv(h) && Enabled(h, Admit(run)) && t == Next(h, Admit(run))
    ensures |h.holders| == h.places ==> t == h
    ensures |h.holders| < h.places ==>
              && run in t.runs && t.runs[run].lease.Some? && !t.runs[run].ended
              && t.runs[run].lease.value !in h.holders && t.holders == h.holders + {t.runs[run].lease.value}
              && t.runs == h.runs[run := t.runs[run]] && t.held == h.held && t.freed == h.freed && t.taken == h.taken + 1
  {
    assert h.made !in h.holders by {
      assert h.made in h.holders ==> LeaseFits(h, h.made);
    }
  }

  /** The groups left are those that did not answer, in their order. */
  ghost predicate LeavesUnanswered(groups: seq<Group>, answers: seq<bool>, left: seq<Group>)
    requires |groups| == |answers|
  {
    && ((forall i :: 0 <= i < |answers| ==> answers[i]) <==> left == [])
    && (forall g :: g in left <==> exists i :: 0 <= i < |groups| && groups[i] == g && !answers[i])
    && |left| <= |groups|
    && ((forall i :: 0 <= i < |answers| ==> !answers[i]) ==> left == groups)
  }

  lemma {:induction false} StillThereAreUnanswered(groups: seq<Group>, answers: seq<bool>)
    requires |groups| == |answers|
    ensures LeavesUnanswered(groups, answers, StillThere(groups, answers))
    decreases |groups|
  {
    if groups != [] {
      var more := StillThere(groups[1..], answers[1..]);
      StillThereAreUnanswered(groups[1..], answers[1..]);
      assert forall i :: 1 <= i < |groups| ==> answers[i] == answers[1..][i - 1] && groups[i] == groups[1..][i - 1];
      forall g ensures g in StillThere(groups, answers) <==> exists i :: 0 <= i < |groups| && groups[i] == g && !answers[i] {
        if g in more {
          var i :| 0 <= i < |groups[1..]| && groups[1..][i] == g && !answers[1..][i];
          assert groups[i + 1] == g && !answers[i + 1];
        }
        if i :| 0 <= i < |groups| && groups[i] == g && !answers[i] && i > 0 {
          assert groups[1..][i - 1] == g && !answers[1..][i - 1];
        }
      }
    }
  }

  /** A retry asks for every group that is left: when all have answered that they are gone, the place is freed and the
      run leaves the quarantine; otherwise exactly the others stay, and so does the place. */
  lemma ARetryFreesOnceAllAreGone(h: House, run: RunId, answers: seq<bool>, t: House)
    requires Inv(h) && Enabled(h, Retry(run, answers)) && t == Next(h, Retry(run, answers))
    ensures forall i :: 0 <= i < |answers| && answers[i] ==>
              h.held[run].unconfirmed[i] in t.confirmed || (run in t.held && h.held[run].unconfirmed[i] in t.held[run].unconfirmed)
    ensures if forall i :: 0 <= i < |answers| ==> answers[i]
            then
              && t.held == h.held - {run}
              && (h.held[run].lease.Some? ==>
                   t.freed == h.freed + [run] && t.holders == h.holders - {h.held[run].lease.value} && |t.holders| == |h.holders| - 1)
              && forall g :: g in h.held[run].unconfirmed ==> g in t.confirmed
            else
              && run in t.held && t.held[run].lease == h.held[run].lease && t.freed == h.freed && t.holders == h.holders
              && LeavesUnanswered(h.held[run].unconfirmed, answers, t.held[run].unconfirmed)
  {
    RetryingTold(h, run, answers);
    StillThereAreUnanswered(h.held[run].unconfirmed, answers);
    hide Retried, StillThere, LeasesFit, FreedOnce, LossesKept;
    if h.held[run].lease.Some? {
      OneFewer(h.holders, h.held[run].lease.value);
    }
  }

  lemma OneFewer(s: set<LeaseId>, l: LeaseId)
    requires l in s
    ensures |s - {l}| == |s| - 1
  {
  }

  // ---------------------------------------------------------------- over every run

  /** A run that had a place has freed it exactly when it ended and left no group in quarantine. */
  predicate NoPlaceIsLost(h: House) {
    forall run :: run in h.runs ==>
      (run in h.freed <==> h.runs[run].ended && h.runs[run].lease.Some? && run !in h.held)
  }

  lemma EveryStepLosesNoPlace(h: House, step: Step)
    requires Inv(h) && Enabled(h, step) && NoPlaceIsLost(h)
    ensures NoPlaceIsLost(Next(h, step))
  {
    match step
    case Admit(run) =>
      assert run !in h.freed;
    case AdmitUnlimited(run) =>
      assert run !in h.freed;
    case End(run, losses) =>
      EndingTold(h, run, losses);
      assert run !in h.held by { assert run in h.held ==> HeldFits(h, run); }
      hide Ended, LeasesFit;
    case ReleaseLate(run) => LateReleasesDoNothing(h, run);
    case Retry(run, answers) =>
      RetryingTold(h, run, answers);
      assert HeldFits(h, run);
      hide Retried, StillThere, LeasesFit;
  }

  lemma {:induction false} RunsLoseNoPlace(h: House, steps: seq<Step>)
    requires Possible(h, steps) && Inv(h) && NoPlaceIsLost(h)
    ensures NoPlaceIsLost(After(h, steps))
    decreases |steps|
  {
    hide Inv, Next, Enabled, NoPlaceIsLost;
    if steps != [] {
      EveryStepKeepsTheInvariant(h, steps[0]);
      EveryStepLosesNoPlace(h, steps[0]);
      RunsLoseNoPlace(Next(h, steps[0]), steps[1..]);
    }
  }

  /** Over any takes, ends, late releases and retries: no place is lost. A run has freed its place exactly when it ended
      and has no group left in quarantine, so one that lost none frees it at its end. */
  lemma NoPlaceIsEverLost(places: nat, steps: seq<Step>)
    requires Possible(Open(places), steps)
    ensures NoPlaceIsLost(After(Open(places), steps))
  {
    OpenHousesAreSound(places);
    RunsLoseNoPlace(Open(places), steps);
  }
}
