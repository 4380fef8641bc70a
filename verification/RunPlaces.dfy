/** The places of supervised runs (packages/service/src/agent_runtime_service/run_liveness.py:802-816 with
    run_events.py:210-236 and quarantine.py:36-73): the supervision of any number of runs and the house of
    their places as one machine. The end of a run's reap hands its losses over before its lease is released. */
module RunPlaces {
  import opened Wire
  import S = Supervision
  import P = SupervisionProperties
  import Q = Quarantines
  import W = WireRuns

  /** The house of places, and the runs whose frames began. */
  datatype Service = Service(house: Q.House, runs: map<Q.RunId, S.Run>)

  datatype Step =
    | Admit(run: Q.RunId)
    | AdmitUnlimited(run: Q.RunId)
    | Begin(run: Q.RunId, first: S.Run)
    | Unserved(run: Q.RunId)
    | Supervised(run: Q.RunId, step: S.Step)
    | ReleaseLate(run: Q.RunId)
    | Retry(run: Q.RunId, answers: seq<bool>)

  predicate Waiting(v: Service, run: Q.RunId) {
    run in v.house.runs && !v.house.runs[run].ended && run !in v.runs
  }

  ghost predicate Enabled(c: S.Config, v: Service, step: Step) {
    match step
    case Admit(run) => Q.Enabled(v.house, Q.Admit(run))
    case AdmitUnlimited(run) => Q.Enabled(v.house, Q.AdmitUnlimited(run))
    case Begin(run, first) => Waiting(v, run) && P.Begins(c, first)
    case Unserved(run) => Waiting(v, run)
    case Supervised(run, s) =>
      && run in v.runs && run in v.house.runs && S.Enabled(v.runs[run], s) && v.runs[run].wire.stream.runId.Some?
    case ReleaseLate(run) => Q.Enabled(v.house, Q.ReleaseLate(run))
    case Retry(run, answers) => Q.Enabled(v.house, Q.Retry(run, answers))
  }

  function HandedOver(t: S.Run): seq<Q.Group> {
    if t.handedOver.Some? then t.handedOver.value else []
  }

  /** A run whose frames never ran has its place released by its response; one that was supervised ends
      with its reap. */
  ghost function Next(c: S.Config, v: Service, step: Step): Service
    requires Enabled(c, v, step)
  {
    match step
    case Admit(run) => v.(house := Q.Next(v.house, Q.Admit(run)))
    case AdmitUnlimited(run) => v.(house := Q.Next(v.house, Q.AdmitUnlimited(run)))
    case Begin(run, first) => v.(runs := v.runs[run := first])
    case Unserved(run) => v.(house := Q.Ended(v.house, run, []))
    case Supervised(run, s) =>
      var t := S.Next(c, v.runs[run], s);
      Service(if s.FinishReap? then Q.Ended(v.house, run, HandedOver(t)) else v.house, v.runs[run := t])
    case ReleaseLate(run) => v.(house := Q.Next(v.house, Q.ReleaseLate(run)))
    case Retry(run, answers) => v.(house := Q.Next(v.house, Q.Retry(run, answers)))
  }

  // ---------------------------------------------------------------- the invariant

  /** A run's place was given up or handed over exactly when its reap finished, with exactly its losses. */
  ghost predicate RunFits(c: S.Config, h: Q.House, run: Q.RunId, t: S.Run) {
    && S.Inv(c, t) && run in h.runs
    && (h.runs[run].ended <==> t.reap.Finished?)
    && (t.reap.Finished? ==> h.runs[run].losses == t.losses)
  }

  ghost predicate Inv(c: S.Config, v: Service) {
    Q.Inv(v.house) && forall run :: run in v.runs ==> RunFits(c, v.house, run, v.runs[run])
  }

  /** What a step of the house does to the record of runs that have ended or are still active. */
  predicate SameRuns(h: Q.House, k: Q.House) {
    forall run :: run in h.runs ==> run in k.runs && k.runs[run] == h.runs[run]
  }

  lemma HouseStepsKeepRuns(h: Q.House, step: Q.Step)
    requires Q.Inv(h) && Q.Enabled(h, step) && !step.End?
    ensures SameRuns(h, Q.Next(h, step)) && Q.Inv(Q.Next(h, step))
  {
    Q.EveryStepKeepsTheInvariant(h, step);
    match step {
      case ReleaseLate(run) => Q.LateReleasesDoNothing(h, run);
      case Retry(run, answers) => Q.RetryingTold(h, run, answers);
      case _ =>
    }
    hide Q.LeasesFit, Q.PlacesCount, Q.FreedOnce, Q.LossesKept, Q.Retried, Q.Released;
  }

  lemma EndsKeepOtherRuns(h: Q.House, run: Q.RunId, losses: seq<Q.Group>)
    requires Q.Inv(h) && Q.Enabled(h, Q.End(run, losses))
    ensures var k := Q.Ended(h, run, losses);
            && Q.Inv(k) && k.runs == h.runs[run := Q.AdmittedRun(h.runs[run].lease, true, losses)]
  {
    Q.EndingKeeps(h, run, losses);
    Q.EndingTold(h, run, losses);
    hide Q.Inv, Q.LeasesFit, Q.Ended;
  }

  lemma LooksFinishNothing(c: S.Config, t: S.Run, now: real, fillAt: real, beatAt: real)
    ensures S.Looked(c, t, now, fillAt, beatAt).reap.Finished? <==> t.reap.Finished?
  {
    hide S.Decided, S.Handled, S.Beaten;
    if t.outcome.Some? {
      OutcomesFinishNothing(c, t);
    }
    BeatsFinishNothing(c, t, fillAt, beatAt);
  }

  lemma OutcomesFinishNothing(c: S.Config, t: S.Run)
    requires t.outcome.Some?
    ensures S.Handled(c, t).reap.Finished? <==> t.reap.Finished?
  {
    hide W.FrameFor;
  }

  lemma BeatsFinishNothing(c: S.Config, t: S.Run, fillAt: real, beatAt: real)
    ensures S.Beaten(c, t, fillAt, beatAt).reap.Finished? <==> t.reap.Finished?
  {
    hide W.Send, W.Due;
  }

  lemma PumpsFinishNothing(c: S.Config, t: S.Run, step: S.Step)
    requires S.Enabled(t, step) && (step.Yield? || step.Break? || step.EndPump?)
    requires t.wire.stream.runId.Some? && S.NoDoubles(t.losses)
    ensures S.Next(c, t, step).reap == t.reap
  {
    S.CollectedKeeps(t, step.met);
    hide S.Collected, S.NoDoubles;
  }

  /** Only the last region of the reap finishes it. */
  lemma OnlyTheReapFinishes(c: S.Config, t: S.Run, step: S.Step)
    requires S.Enabled(t, step) && t.wire.stream.runId.Some? && S.NoDoubles(t.losses)
    ensures S.Next(c, t, step).reap.Finished? <==> t.reap.Finished? || step.FinishReap?
  {
    hide S.NoDoubles, S.Looked, S.Collected, S.Yielded, S.Decided, W.Commit, W.RecordEnding, S.InHand;
    match step {
      case Look(now, fillAt, beatAt) => LooksFinishNothing(c, t, now, fillAt, beatAt);
      case Yield(_, _) => PumpsFinishNothing(c, t, step);
      case Break(_) => PumpsFinishNothing(c, t, step);
      case EndPump(_) => PumpsFinishNothing(c, t, step);
      case _ =>
    }
  }

  lemma RecordsEndWithTheReap(c: S.Config, t: S.Run)
    requires S.Inv(c, t)
    ensures (t.over.Some? <==> t.reap.Finished?) && (t.over.Some? ==> HandedOver(t) == t.losses)
  {
    hide S.PlaceFits, S.OneStepAtATime, S.FramesKept, S.NoDoubles;
  }

  /** What a supervised step keeps: the losses of a finished run stay what was handed over. */
  lemma SupervisionKeeps(c: S.Config, h: Q.House, run: Q.RunId, t: S.Run, step: S.Step)
    requires RunFits(c, h, run, t) && S.Enabled(t, step) && t.wire.stream.runId.Some? && !step.FinishReap?
    ensures RunFits(c, h, run, S.Next(c, t, step))
  {
    S.EveryStepKeepsTheInvariant(c, t, step);
    OnlyTheReapFinishes(c, t, step);
    P.EveryStepStands(c, t, step);
    var u := S.Next(c, t, step);
    hide S.Next, S.PlaceFits, S.OneStepAtATime, S.FramesKept, S.NoDoubles;
  }

  lemma ReapedRunsHandOver(c: S.Config, t: S.Run)
    requires S.Inv(c, t) && S.Enabled(t, S.FinishReap) && t.wire.stream.runId.Some?
    ensures var u := S.Next(c, t, S.FinishReap); S.Inv(c, u) && u.reap.Finished? && HandedOver(u) == u.losses
  {
    S.EveryStepKeepsTheInvariant(c, t, S.FinishReap);
    OnlyTheReapFinishes(c, t, S.FinishReap);
    hide S.Next;
    RecordsEndWithTheReap(c, S.Next(c, t, S.FinishReap));
  }

  lemma ReapingKeeps(c: S.Config, v: Service, run: Q.RunId)
    requires Inv(c, v) && Enabled(c, v, Supervised(run, S.FinishReap))
    ensures Inv(c, Next(c, v, Supervised(run, S.FinishReap)))
  {
    hide S.Inv, S.Next, Q.Inv, Q.Ended;
    var t := v.runs[run];
    assert RunFits(c, v.house, run, t);
    ReapedRunsHandOver(c, t);
    var u := S.Next(c, t, S.FinishReap);
    EndsKeepOtherRuns(v.house, run, u.losses);
    assert forall r :: r in v.runs ==> RunFits(c, v.house, r, v.runs[r]);
  }

  lemma StepKeepsTheHouse(c: S.Config, v: Service, step: Step)
    requires Inv(c, v) && Enabled(c, v, step) && !step.Supervised? && !step.Begin? && !step.Unserved?
    ensures Inv(c, Next(c, v, step))
  {
    hide S.Inv, Q.Inv, Q.Next, Q.Enabled;
    match step {
      case Admit(run) => HouseStepsKeepRuns(v.house, Q.Admit(run));
      case AdmitUnlimited(run) => HouseStepsKeepRuns(v.house, Q.AdmitUnlimited(run));
      case ReleaseLate(run) => HouseStepsKeepRuns(v.house, Q.ReleaseLate(run));
      case Retry(run, answers) => HouseStepsKeepRuns(v.house, Q.Retry(run, answers));
    }
  }

  lemma EveryStepKeepsTheInvariant(c: S.Config, v: Service, step: Step)
    requires Inv(c, v) && Enabled(c, v, step)
    ensures Inv(c, Next(c, v, step))
  {
    hide S.Next, Q.Inv, Q.Ended, Q.Next;
    match step {
      case Begin(run, first) =>
        P.BeginningKeeps(c, first);
        BeginsUnfinished(c, first);
      case Unserved(run) => EndsKeepOtherRuns(v.house, run, []);
      case Supervised(run, s) =>
        if s.FinishReap? {
          ReapingKeeps(c, v, run);
        } else {
          SupervisionKeeps(c, v.house, run, v.runs[run], s);
        }
      case _ => StepKeepsTheHouse(c, v, step);
    }
  }

  lemma BeginsUnfinished(c: S.Config, s: S.Run)
    requires P.Begins(c, s)
    ensures s.reap.NotAsked?
  {
  }

  // ---------------------------------------------------------------- over every run

  ghost predicate Possible(c: S.Config, v: Service, steps: seq<Step>)
    decreases |steps|
  {
    steps == [] || (Enabled(c, v, steps[0]) && Possible(c, Next(c, v, steps[0]), steps[1..]))
  }

  ghost function After(c: S.Config, v: Service, steps: seq<Step>): Service
    requires Possible(c, v, steps)
    decreases |steps|
  {
    if steps == [] then v else After(c, Next(c, v, steps[0]), steps[1..])
  }

  lemma {:induction false} RunsKeepTheInvariant(c: S.Config, v: Service, steps: seq<Step>)
    requires Possible(c, v, steps) && Inv(c, v)
    ensures Inv(c, After(c, v, steps)) && After(c, v, steps).house.places == v.house.places
    decreases |steps|
  {
    if steps != [] {
      EveryStepKeepsTheInvariant(c, v, steps[0]);
      PlacesStay(c, v, steps[0]);
      hide Inv, Next, Enabled;
      RunsKeepTheInvariant(c, Next(c, v, steps[0]), steps[1..]);
    }
  }

  lemma PlacesStay(c: S.Config, v: Service, step: Step)
    requires Enabled(c, v, step)
    ensures Next(c, v, step).house.places == v.house.places
  {
    hide S.Next, Q.StillThere;
  }

  ghost predicate KeepsItsPlace(h: Q.House, run: Q.RunId) {
    run in h.runs && (h.runs[run].lease.Some? ==> Q.HolderOf(h, run).Some? && Q.HolderOf(h, run).value in h.holders)
  }

  /** Over every interleaving of any number of supervised runs: a run keeps its place until its record ended and
      every group its reap collected has answered that it is gone, and only then is the place freed. */
  lemma ThePlaceOutlivesTheLosses(c: S.Config, places: nat, steps: seq<Step>, run: Q.RunId)
    requires Possible(c, Service(Q.Open(places), map[]), steps)
    requires run in After(c, Service(Q.Open(places), map[]), steps).runs
    ensures var v := After(c, Service(Q.Open(places), map[]), steps);
            var (h, t) := (v.house, v.runs[run]);
            && (t.over.None? || (exists g :: g in t.losses && g !in h.confirmed) ==> KeepsItsPlace(h, run))
            && (run in h.freed ==> t.over.Some? && forall g :: g in t.losses ==> g in h.confirmed)
            && (t.over.Some? ==> HandedOver(t) == t.losses)
  {
    Q.OpenHousesAreSound(places);
    RunsKeepTheInvariant(c, Service(Q.Open(places), map[]), steps);
    var v := After(c, Service(Q.Open(places), map[]), steps);
    hide After, Possible;
    var (h, t) := (v.house, v.runs[run]);
    assert RunFits(c, h, run, t);
    RecordsEndWithTheReap(c, t);
    hide S.Inv;
    PlacesAreKept(h, run);
  }

  lemma PlacesAreKept(h: Q.House, run: Q.RunId)
    requires Q.Inv(h) && run in h.runs
    ensures !h.runs[run].ended || (exists g :: g in h.runs[run].losses && g !in h.confirmed) ==> KeepsItsPlace(h, run)
    ensures run in h.freed ==> h.runs[run].ended && forall g :: g in h.runs[run].losses ==> g in h.confirmed
  {
    assert Q.RunFits(h, run);
    assert run in h.held ==> Q.HeldFits(h, run);
  }

  /** At most `places` places are held by all runs together, and none is freed twice. */
  lemma PlacesStayWithinTheLimit(c: S.Config, places: nat, steps: seq<Step>)
    requires Possible(c, Service(Q.Open(places), map[]), steps)
    ensures var h := After(c, Service(Q.Open(places), map[]), steps).house;
            |h.holders| <= places && h.taken == |h.holders| + |h.freed|
  {
    Q.OpenHousesAreSound(places);
    RunsKeepTheInvariant(c, Service(Q.Open(places), map[]), steps);
    hide After, Possible, S.Inv, Q.LeasesFit;
  }
}
