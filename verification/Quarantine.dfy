/** The places of runs from admission to quarantine (packages/service/src/agent_runtime_service/quarantine.py:30-80,
    admission.py:22-51 and run_events.py:199-236): who holds a place, and when it is freed. */
module Quarantines {
  import opened Wire

  type RunId = nat

  type LeaseId = nat

  type Group = nat

  datatype AdmittedRun = AdmittedRun(lease: Option<LeaseId>, ended: bool, losses: seq<Group>)

  /** A run in quarantine: the lease that holds its place, and the groups not confirmed gone yet. */
  datatype HeldRun = HeldRun(lease: Option<LeaseId>, unconfirmed: seq<Group>)

  /** `owner` says whose place a lease was made for, `freed` logs the runs whose place was freed and
      `confirmed` the groups that answered that they are gone. */
  datatype House = House(
    places: nat, holders: set<LeaseId>, made: LeaseId, owner: map<LeaseId, RunId>,
    runs: map<RunId, AdmittedRun>, held: map<RunId, HeldRun>,
    taken: nat, freed: seq<RunId>, confirmed: set<Group>)

  function Open(places: nat): House {
    House(places, {}, 0, map[], map[], map[], 0, [], {})
  }

  datatype Step =
    | Admit(run: RunId)
    | AdmitUnlimited(run: RunId)
    | End(run: RunId, losses: seq<Group>)
    | ReleaseLate(run: RunId)
    | Retry(run: RunId, answers: seq<bool>)

  predicate Enabled(h: House, step: Step) {
    match step
    case Admit(run) => run !in h.runs
    case AdmitUnlimited(run) => run !in h.runs
    case End(run, _) => run in h.runs && !h.runs[run].ended
    case ReleaseLate(run) => run in h.runs && h.runs[run].ended
    case Retry(run, answers) => run in h.held && |answers| == |h.held[run].unconfirmed|
  }

  /** Frees the place a lease holds, if it still holds one. */
  function Released(h: House, lease: Option<LeaseId>): House {
    if lease.Some? && lease.value in h.holders && lease.value in h.owner
    then h.(holders := h.holders - {lease.value}, freed := h.freed + [h.owner[lease.value]])
    else h
  }

  /** The place moves to a new lease; a stale lease yields one that holds nothing. */
  function Transferred(h: House, run: RunId, lease: LeaseId): House {
    h.(made := h.made + 1, owner := h.owner[h.made := run],
       holders := if lease in h.holders then h.holders - {lease} + {h.made} else h.holders)
  }

  function Hold(h: House, run: RunId, lease: Option<LeaseId>, groups: seq<Group>): House {
    if lease.None? then h.(held := h.held[run := HeldRun(None, groups)])
    else Transferred(h, run, lease.value).(held := h.held[run := HeldRun(Some(h.made), groups)])
  }

  /** The end of a run: its place is handed over when it lost groups, before its own lease is released. */
  function Ended(h: House, run: RunId, losses: seq<Group>): House
    requires run in h.runs
  {
    var lease := h.runs[run].lease;
    var over := if losses != [] then Hold(h, run, lease, losses) else h;
    Released(over.(runs := h.runs[run := AdmittedRun(lease, true, losses)]), lease)
  }

  function StillThere(groups: seq<Group>, answers: seq<bool>): seq<Group>
    requires |groups| == |answers|
  {
    if groups == [] then []
    else (if answers[0] then [] else [groups[0]]) + StillThere(groups[1..], answers[1..])
  }

  /** One retry asks for every group not confirmed yet; the place is freed once none is left. */
  function Retried(h: House, run: RunId, answers: seq<bool>): House
    requires run in h.held && |answers| == |h.held[run].unconfirmed|
  {
    var groups := h.held[run].unconfirmed;
    var left := StillThere(groups, answers);
    var asked := h.(confirmed := h.confirmed + set g | g in groups && g !in left);
    if left != [] then asked.(held := h.held[run := HeldRun(h.held[run].lease, left)])
    else Released(asked.(held := h.held - {run}), h.held[run].lease)
  }

  function Next(h: House, step: Step): House
    requires Enabled(h, step)
  {
    match step
    case Admit(run) =>
      if |h.holders| >= h.places then h
      else h.(holders := h.holders + {h.made}, made := h.made + 1, owner := h.owner[h.made := run], taken := h.taken + 1,
              runs := h.runs[run := AdmittedRun(Some(h.made), false, [])])
    case AdmitUnlimited(run) => h.(runs := h.runs[run := AdmittedRun(None, false, [])])
    case End(run, losses) => Ended(h, run, losses)
    case ReleaseLate(run) => Released(h, h.runs[run].lease)
    case Retry(run, answers) => Retried(h, run, answers)
  }

  // ---------------------------------------------------------------- the invariant

  /** The lease that holds the run's place now. */
  function HolderOf(h: House, run: RunId): Option<LeaseId>
    requires run in h.runs
  {
    if !h.runs[run].ended then h.runs[run].lease
    else if run in h.held then h.held[run].lease
    else None
  }

  predicate LeaseFits(h: House, l: LeaseId) {
    l in h.owner && h.owner[l] in h.runs && HolderOf(h, h.owner[l]) == Some(l)
  }

  predicate Owns(h: House, run: RunId, lease: Option<LeaseId>) {
    lease.Some? ==> lease.value in h.owner && h.owner[lease.value] == run && lease.value < h.made
  }

  predicate RunFits(h: House, run: RunId)
    requires run in h.runs
  {
    && Owns(h, run, h.runs[run].lease) && Owns(h, run, HolderOf(h, run))
    && (HolderOf(h, run).Some? ==> HolderOf(h, run).value in h.holders)
  }

  predicate HeldFits(h: House, run: RunId)
    requires run in h.held
  {
    && run in h.runs && h.runs[run].ended && h.held[run].unconfirmed != []
    && (h.held[run].lease.Some? <==> h.runs[run].lease.Some?)
    && (h.held[run].lease.Some? ==> h.held[run].lease != h.runs[run].lease)
  }

  /** Each place is held by one lease, that of its run or the one in quarantine. */
  predicate LeasesFit(h: House) {
    && (forall l :: l in h.owner ==> l < h.made)
    && (forall l :: l in h.holders ==> LeaseFits(h, l))
    && (forall run :: run in h.runs ==> RunFits(h, run))
    && (forall run :: run in h.held ==> HeldFits(h, run))
  }

  predicate PlacesCount(h: House) {
    |h.holders| <= h.places && h.taken == |h.holders| + |h.freed|
  }

  /** A place is freed once, and only when the run has ended and left no group in quarantine. */
  predicate FreedOnce(h: House) {
    && (forall i, j :: 0 <= i < j < |h.freed| ==> h.freed[i] != h.freed[j])
    && (forall run :: run in h.freed ==> run in h.runs && h.runs[run].ended && run !in h.held)
  }

  predicate LossesKept(h: House) {
    forall run, g :: run in h.runs && h.runs[run].ended && g in h.runs[run].losses ==>
      g in h.confirmed || (run in h.held && g in h.held[run].unconfirmed)
  }

  predicate Inv(h: House) {
    LeasesFit(h) && PlacesCount(h) && FreedOnce(h) && LossesKept(h)
  }

  lemma {:induction false} StillThereKeeps(groups: seq<Group>, answers: seq<bool>)
    requires |groups| == |answers|
    ensures forall g :: g in StillThere(groups, answers) ==> g in groups
    ensures forall i :: 0 <= i < |groups| && !answers[i] ==> groups[i] in StillThere(groups, answers)
    ensures forall g :: g in groups && g !in StillThere(groups, answers) ==> exists i :: 0 <= i < |groups| && groups[i] == g && answers[i]
    decreases |groups|
  {
    if groups != [] {
      var more := StillThere(groups[1..], answers[1..]);
      StillThereKeeps(groups[1..], answers[1..]);
      forall i | 0 <= i < |groups| && !answers[i] ensures groups[i] in StillThere(groups, answers) {
        assert i > 0 ==> groups[1..][i - 1] == groups[i] && !answers[1..][i - 1];
      }
      forall g | g in groups && g !in StillThere(groups, answers)
        ensures exists i :: 0 <= i < |groups| && groups[i] == g && answers[i]
      {
        if g in groups[1..] {
          var i :| 0 <= i < |groups[1..]| && groups[1..][i] == g && answers[1..][i];
          assert groups[i + 1] == g && answers[i + 1];
        } else {
          assert groups[0] == g;
        }
      }
    }
  }

  lemma AdmittingKeepsLeases(h: House, run: RunId)
    requires LeasesFit(h) && Enabled(h, Admit(run))
    ensures LeasesFit(Next(h, Admit(run)))
  {
    var t := Next(h, Admit(run));
    if |h.holders| < h.places {
      forall l | l in t.holders ensures LeaseFits(t, l) {
        assert l != h.made ==> LeaseFits(h, l);
        assert run in h.held ==> HeldFits(h, run);
      }
      forall r | r in t.runs ensures RunFits(t, r) {
        if r != run {
          assert RunFits(h, r) && HolderOf(t, r) == HolderOf(h, r);
        } else {
          assert HolderOf(t, r) == Some(h.made);
        }
      }
      forall r | r in t.held ensures HeldFits(t, r) {
        assert HeldFits(h, r);
      }
    }
  }

  lemma AdmittingKeeps(h: House, run: RunId)
    requires Inv(h) && Enabled(h, Admit(run))
    ensures Inv(Next(h, Admit(run)))
  {
    AdmittingKeepsLeases(h, run);
    assert h.made !in h.holders;
    hide LeasesFit;
  }

  lemma AdmittingUnlimitedKeeps(h: House, run: RunId)
    requires Inv(h) && Enabled(h, AdmitUnlimited(run))
    ensures Inv(Next(h, AdmitUnlimited(run)))
  {
  }

  /** A late release of an ended run's own lease does nothing. */
  lemma LateReleasesDoNothing(h: House, run: RunId)
    requires LeasesFit(h) && Enabled(h, ReleaseLate(run))
    ensures Next(h, ReleaseLate(run)) == h
  {
  }

  /** What becomes of the house at a run's end, told by cases. */
  lemma EndingTold(h: House, run: RunId, losses: seq<Group>)
    requires LeasesFit(h) && Enabled(h, End(run, losses))
    ensures var lease := h.runs[run].lease;
            var runs := h.runs[run := AdmittedRun(lease, true, losses)];
            && (lease.Some? ==> lease.value in h.holders && lease.value < h.made && h.owner[lease.value] == run)
            && Ended(h, run, losses) ==
               if lease.None? then
                 h.(runs := runs, held := if losses != [] then h.held[run := HeldRun(None, losses)] else h.held)
               else if losses == [] then
                 h.(runs := runs, holders := h.holders - {lease.value}, freed := h.freed + [run])
               else
                 h.(runs := runs, holders := h.holders - {lease.value} + {h.made}, made := h.made + 1,
                    owner := h.owner[h.made := run], held := h.held[run := HeldRun(Some(h.made), losses)])
  {
    assert RunFits(h, run) && HolderOf(h, run) == h.runs[run].lease;
  }

  lemma EndingKeepsHolders(h: House, run: RunId, losses: seq<Group>)
    requires LeasesFit(h) && Enabled(h, End(run, losses)) && run !in h.held
    ensures var t := Ended(h, run, losses);
            && (forall l :: l in t.owner ==> l < t.made) && (forall l :: l in t.holders ==> LeaseFits(t, l))
  {
    var t := Ended(h, run, losses);
    EndingTold(h, run, losses);
    assert RunFits(h, run);
    hide Ended;
    forall l | l in t.holders ensures LeaseFits(t, l) {
      if l in h.holders {
        assert LeaseFits(h, l) && h.owner[l] != run && HolderOf(t, h.owner[l]) == HolderOf(h, h.owner[l]);
      }
    }
  }

  lemma EndingKeepsRuns(h: House, run: RunId, losses: seq<Group>)
    requires LeasesFit(h) && Enabled(h, End(run, losses)) && run !in h.held
    ensures var t := Ended(h, run, losses); forall r :: r in t.runs ==> RunFits(t, r)
  {
    var t := Ended(h, run, losses);
    EndingTold(h, run, losses);
    assert RunFits(h, run);
    hide Ended;
    forall r | r in t.runs ensures RunFits(t, r) {
      assert RunFits(h, r);
      if r != run {
        assert HolderOf(t, r) == HolderOf(h, r);
      }
    }
  }

  lemma EndingKeepsHeld(h: House, run: RunId, losses: seq<Group>)
    requires LeasesFit(h) && Enabled(h, End(run, losses)) && run !in h.held
    ensures var t := Ended(h, run, losses); forall r :: r in t.held ==> HeldFits(t, r)
  {
    var t := Ended(h, run, losses);
    EndingTold(h, run, losses);
    hide Ended;
    forall r | r in t.held ensures HeldFits(t, r) {
      assert r != run ==> HeldFits(h, r);
    }
  }

  lemma EndingKeepsLeases(h: House, run: RunId, losses: seq<Group>)
    requires LeasesFit(h) && Enabled(h, End(run, losses))
    ensures LeasesFit(Ended(h, run, losses))
  {
    assert run in h.held ==> HeldFits(h, run);
    EndingKeepsHolders(h, run, losses);
    EndingKeepsRuns(h, run, losses);
    EndingKeepsHeld(h, run, losses);
    hide Ended, LeaseFits, RunFits, HeldFits;
  }

  lemma EndingKeepsCounts(h: House, run: RunId, losses: seq<Group>)
    requires LeasesFit(h) && PlacesCount(h) && Enabled(h, End(run, losses))
    ensures PlacesCount(Ended(h, run, losses))
  {
    EndingTold(h, run, losses);
    assert h.made !in h.holders by { assert h.made in h.holders ==> LeaseFits(h, h.made); }
    hide LeasesFit, Ended;
    if h.runs[run].lease.Some? {
      var l := h.runs[run].lease.value;
      assert |h.holders - {l}| == |h.holders| - 1;
      assert |h.holders - {l} + {h.made}| == |h.holders|;
    }
  }

  lemma EndingFreesOnce(h: House, run: RunId, losses: seq<Group>)
    requires LeasesFit(h) && FreedOnce(h) && Enabled(h, End(run, losses))
    ensures FreedOnce(Ended(h, run, losses))
  {
    EndingTold(h, run, losses);
    assert run !in h.freed;
    assert run !in h.held by { assert run in h.held ==> HeldFits(h, run); }
    hide LeasesFit, Ended, HeldFits;
  }

  lemma EndingKeepsLosses(h: House, run: RunId, losses: seq<Group>)
    requires LeasesFit(h) && LossesKept(h) && Enabled(h, End(run, losses))
    ensures LossesKept(Ended(h, run, losses))
  {
    EndingTold(h, run, losses);
    hide LeasesFit, Ended;
    assert losses == [] ==> forall g :: g !in losses;
  }

  lemma EndingKeeps(h: House, run: RunId, losses: seq<Group>)
    requires Inv(h) && Enabled(h, End(run, losses))
    ensures Inv(Next(h, End(run, losses)))
  {
    EndingKeepsLeases(h, run, losses);
    EndingKeepsCounts(h, run, losses);
    EndingFreesOnce(h, run, losses);
    EndingKeepsLosses(h, run, losses);
  }

  /** What becomes of the house at a retry, told by cases. */
  lemma RetryingTold(h: House, run: RunId, answers: seq<bool>)
    requires LeasesFit(h) && Enabled(h, Retry(run, answers))
    ensures var groups := h.held[run].unconfirmed;
            var left := StillThere(groups, answers);
            var lease := h.held[run].lease;
            var confirmed := h.confirmed + set g | g in groups && g !in left;
            && run in h.runs && h.runs[run].ended
            && (lease.Some? ==> lease.value in h.holders && h.owner[lease.value] == run)
            && Retried(h, run, answers) ==
               if left != [] then h.(held := h.held[run := HeldRun(lease, left)], confirmed := confirmed)
               else if lease.None? then h.(held := h.held - {run}, confirmed := confirmed)
               else h.(held := h.held - {run}, confirmed := confirmed,
                       holders := h.holders - {lease.value}, freed := h.freed + [run])
  {
    assert HeldFits(h, run) && RunFits(h, run) && HolderOf(h, run) == h.held[run].lease;
  }

  lemma RetryingKeepsLeases(h: House, run: RunId, answers: seq<bool>)
    requires LeasesFit(h) && Enabled(h, Retry(run, answers))
    ensures LeasesFit(Retried(h, run, answers))
  {
    var t := Retried(h, run, answers);
    RetryingTold(h, run, answers);
    assert HeldFits(h, run);
    hide Retried, StillThere;
    forall l | l in t.holders ensures LeaseFits(t, l) {
      assert LeaseFits(h, l);
    }
    forall r | r in t.runs ensures RunFits(t, r) {
      assert RunFits(h, r);
      assert r != run ==> HolderOf(t, r) == HolderOf(h, r);
    }
    forall r | r in t.held ensures HeldFits(t, r) {
      assert HeldFits(h, r);
    }
  }

  lemma RetryingKeepsLosses(h: House, run: RunId, answers: seq<bool>)
    requires LeasesFit(h) && LossesKept(h) && Enabled(h, Retry(run, answers))
    ensures LossesKept(Retried(h, run, answers))
  {
    RetryingTold(h, run, answers);
    StillThereKeeps(h.held[run].unconfirmed, answers);
    hide Retried, StillThere, LeasesFit;
  }

  lemma RetryingKeeps(h: House, run: RunId, answers: seq<bool>)
    requires Inv(h) && Enabled(h, Retry(run, answers))
    ensures Inv(Next(h, Retry(run, answers)))
  {
    RetryingTold(h, run, answers);
    RetryingKeepsLeases(h, run, answers);
    RetryingKeepsLosses(h, run, answers);
    assert run !in h.freed;
    hide Retried, StillThere, LeasesFit, LossesKept;
  }

  lemma EveryStepKeepsTheInvariant(h: House, step: Step)
    requires Enabled(h, step) && Inv(h)
    ensures Inv(Next(h, step))
  {
    match step
    case Admit(run) => AdmittingKeeps(h, run);
    case AdmitUnlimited(run) => AdmittingUnlimitedKeeps(h, run);
    case End(run, losses) => EndingKeeps(h, run, losses);
    case ReleaseLate(run) => LateReleasesDoNothing(h, run);
    case Retry(run, answers) => RetryingKeeps(h, run, answers);
  }

  lemma OpenHousesAreSound(places: nat)
    ensures Inv(Open(places))
  {
  }

  // ---------------------------------------------------------------- over every run

  predicate Possible(h: House, steps: seq<Step>)
    decreases |steps|
  {
    steps == [] || (Enabled(h, steps[0]) && Possible(Next(h, steps[0]), steps[1..]))
  }

  function After(h: House, steps: seq<Step>): House
    requires Possible(h, steps)
    decreases |steps|
  {
    if steps == [] then h else After(Next(h, steps[0]), steps[1..])
  }

  lemma {:induction false} RunsKeepTheInvariant(h: House, steps: seq<Step>)
    requires Possible(h, steps) && Inv(h)
    ensures Inv(After(h, steps)) && After(h, steps).places == h.places
    decreases |steps|
  {
    if steps != [] {
      EveryStepKeepsTheInvariant(h, steps[0]);
      PlacesStay(h, steps[0]);
      hide Inv, Next, Enabled;
      RunsKeepTheInvariant(Next(h, steps[0]), steps[1..]);
    }
  }

  lemma PlacesStay(h: House, step: Step)
    requires Enabled(h, step)
    ensures Next(h, step).places == h.places
  {
  }

  /** Over any takes, run ends, late releases and retries: at most `places` places are held, each place
      taken is held or was freed, and none is freed twice. */
  lemma PlacesAreConserved(places: nat, steps: seq<Step>)
    requires Possible(Open(places), steps)
    ensures var h := After(Open(places), steps);
            && |h.holders| <= places && h.taken == |h.holders| + |h.freed|
            && (forall i, j :: 0 <= i < j < |h.freed| ==> h.freed[i] != h.freed[j])
  {
    OpenHousesAreSound(places);
    hide Possible, After, Next, Enabled, LeasesFit, LossesKept;
    RunsKeepTheInvariant(Open(places), steps);
  }

  /** A run that lost groups keeps its place until every one of them has answered that it is gone. */
  lemma LostGroupsKeepThePlace(places: nat, steps: seq<Step>, run: RunId)
    requires Possible(Open(places), steps) && run in After(Open(places), steps).runs
    ensures var h := After(Open(places), steps);
            && (run in h.freed ==> forall g :: g in h.runs[run].losses ==> g in h.confirmed)
            && (h.runs[run].ended && h.runs[run].lease.Some?
                && (exists g :: g in h.runs[run].losses && g !in h.confirmed) ==>
                run in h.held && h.held[run].lease.Some? && h.held[run].lease.value in h.holders)
  {
    OpenHousesAreSound(places);
    hide Possible, After, Next, Enabled;
    RunsKeepTheInvariant(Open(places), steps);
    var h := After(Open(places), steps);
    assert RunFits(h, run);
    assert run in h.held ==> HeldFits(h, run);
  }
}
