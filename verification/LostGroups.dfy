/** One retained process group and the attempts to confirm it gone (src/agent_runtime/lost_groups.py:66-178):
    any number of calls, each with its census worker, on any threads. A hold of the registry lock, a
    call into the child and a callback are steps of their own, so every interleaving is allowed. */
module LostGroups {
  import opened Wire

  type CallId = nat

  datatype Answer = Gone | NotGone | Raised

  datatype Count = Empty | NotEmpty | Failed

  datatype CallPlace =
    | Trying | Starting | Awaiting | Releasing | WritingFlag | LeaderReleased | Removing
    | Leaving(answer: Answer) | Answered(answer: Answer)

  /** The worker and its start claim: the starter that lost it to a failed start leaves it to nobody. */
  datatype WorkerPlace = NoWorker | Unclaimed | Counting | Counted(count: Count) | Left(count: Count) | Published(count: Count) | Disowned

  /** A call, its attempt's holders and its worker. A call that was answered at once has no holder. */
  datatype Call = Call(place: CallPlace, holders: int, worker: WorkerPlace, exitKnown: bool)

  /** `released` is the call whose attempt released the leader. */
  datatype Retention = Retention(
    present: bool, flag: bool, attempt: Option<CallId>, calls: map<CallId, Call>,
    leaderReleases: nat, slotReleases: nat, released: Option<CallId>)

  const RETAINED := Retention(true, false, None, map[], 0, 0, None)

  datatype Step =
    | Begin(c: CallId)
    | Try(c: CallId)
    | StartReturns(c: CallId, raised: bool)
    | WorkerClaims(c: CallId)
    | WorkerCounts(c: CallId, count: Count)
    | WorkerLeaves(c: CallId)
    | WorkerPublishes(c: CallId)
    | Resume(c: CallId, exitKnown: bool)
    | Cancel(c: CallId)
    | ReleaseLeader(c: CallId, ok: bool)
    | WriteFlag(c: CallId)
    | ReleaseSlot(c: CallId, ok: bool)
    | Remove(c: CallId)
    | Leave(c: CallId)

  predicate Enabled(r: Retention, step: Step) {
    if step.Begin? then step.c !in r.calls
    else step.c in r.calls && CallEnabled(r.calls[step.c], step)
  }

  predicate CallEnabled(k: Call, step: Step) {
    match step
    case Begin(_) => false
    case Try(_) => k.place.Trying?
    case StartReturns(_, _) => k.place.Starting?
    case WorkerClaims(_) => k.worker.Unclaimed?
    case WorkerCounts(_, _) => k.worker.Counting?
    case WorkerLeaves(_) => k.worker.Counted?
    case WorkerPublishes(_) => k.worker.Left?
    case Resume(_, _) => k.place.Awaiting? && k.worker.Published?
    case Cancel(_) => k.place.Awaiting?
    case ReleaseLeader(_, _) => k.place.Releasing?
    case WriteFlag(_) => k.place.WritingFlag?
    case ReleaseSlot(_, _) => k.place.LeaderReleased?
    case Remove(_) => k.place.Removing?
    case Leave(_) => k.place.Leaving?
  }

  /** Only an empty count with a committed exit leads on to the leader's release. */
  function Resumed(k: Call, exitKnown: bool): Call
    requires k.worker.Published?
  {
    match k.worker.count
    case Failed => k.(place := Leaving(Raised))
    case NotEmpty => k.(place := Leaving(NotGone))
    case Empty => k.(place := if exitKnown then Releasing else Leaving(NotGone), exitKnown := exitKnown)
  }

  function Next(r: Retention, step: Step): Retention
    requires Enabled(r, step)
  {
    if step.Begin? then Begun(r, step.c) else Moved(r, step, CallMoved(r.flag, r.calls[step.c], step))
  }

  function Begun(r: Retention, c: CallId): Retention {
    if !r.present then r.(calls := r.calls[c := Call(Answered(Gone), 0, NoWorker, false)])
    else if r.attempt.Some? then r.(calls := r.calls[c := Call(Answered(NotGone), 0, NoWorker, false)])
    else r.(calls := r.calls[c := Call(Trying, 1, NoWorker, false)], attempt := Some(c))
  }

  /** What a step does to its own call. */
  function CallMoved(flag: bool, k: Call, step: Step): Call
    requires CallEnabled(k, step)
  {
    match step
    case Begin(_) => k
    case Try(_) =>
      if flag then k.(place := LeaderReleased) else k.(place := Starting, holders := k.holders + 1, worker := Unclaimed)
    case StartReturns(_, raised) =>
      if !raised then k.(place := Awaiting)
      else if k.worker.Unclaimed? then k.(place := Leaving(Raised), worker := Disowned, holders := k.holders - 1)
      else k.(place := Leaving(Raised))
    case WorkerClaims(_) => k.(worker := Counting)
    case WorkerCounts(_, count) => k.(worker := Counted(count))
    case WorkerLeaves(_) => k.(worker := Left(k.worker.count), holders := k.holders - 1)
    case WorkerPublishes(_) => k.(worker := Published(k.worker.count))
    case Resume(_, exitKnown) => Resumed(k, exitKnown)
    case Cancel(_) => k.(place := Leaving(Raised))
    case ReleaseLeader(_, ok) => k.(place := if ok then WritingFlag else Leaving(Raised))
    case WriteFlag(_) => k.(place := LeaderReleased)
    case ReleaseSlot(_, ok) => k.(place := if ok then Removing else Leaving(Raised))
    case Remove(_) => k.(place := Leaving(Gone))
    case Leave(_) => k.(place := Answered(k.place.answer), holders := k.holders - 1)
  }

  /** What it does to the entry: the attempt ends with its last holder. */
  function Moved(r: Retention, step: Step, k: Call): Retention {
    r.(calls := r.calls[step.c := k],
       attempt := if r.attempt == Some(step.c) && k.holders == 0 then None else r.attempt,
       flag := r.flag || step.WriteFlag?,
       present := r.present && !step.Remove?,
       leaderReleases := r.leaderReleases + (if step.ReleaseLeader? && step.ok then 1 else 0),
       slotReleases := r.slotReleases + (if step.ReleaseSlot? && step.ok then 1 else 0),
       released := if step.ReleaseLeader? && step.ok then Some(step.c) else r.released)
  }

  // ---------------------------------------------------------------- the invariant

  function CallHolds(k: Call): int {
    if k.place.Answered? then 0 else 1
  }

  function WorkerHolds(k: Call): int {
    if k.worker.Unclaimed? || k.worker.Counting? || k.worker.Counted? then 1 else 0
  }

  /** An attempt's holders are its live call and its live worker. */
  predicate HoldersFit(k: Call) {
    && k.holders == CallHolds(k) + WorkerHolds(k)
    && (k.place.Trying? ==> k.worker.NoWorker?)
    && (k.place.Releasing? || k.place.WritingFlag? ==>
          k.worker == Published(Empty) && k.exitKnown)
    && (k.place.Awaiting? ==> !k.worker.NoWorker? && !k.worker.Disowned?)
    && (k.place.Starting? ==> !k.worker.NoWorker? && !k.worker.Disowned?)
  }

  /** Only the call of the current attempt has holders. */
  predicate OneAttempt(r: Retention) {
    && (forall c :: c in r.calls ==> HoldersFit(r.calls[c]) && (r.calls[c].holders > 0 <==> r.attempt == Some(c)))
    && (r.attempt.Some? ==> r.attempt.value in r.calls)
  }

  /** The leader's release, the slot's release and the removal come once each and in that order. */
  predicate InOrder(r: Retention, k: Call) {
    && (!k.place.Answered? && k.place != Leaving(Gone) ==> r.present)
    && (k.place.Starting? || k.place.Awaiting? ==> !r.flag)
    && (k.place.Releasing? ==> !r.flag && r.leaderReleases == 0)
    && (k.place.WritingFlag? ==> !r.flag && r.leaderReleases == 1)
    && (k.place.LeaderReleased? ==> r.flag && r.slotReleases == 0 && r.present)
    && (k.place.Removing? ==> r.flag && r.slotReleases == 1 && r.present)
    && (k.place == Leaving(Gone) || k.place == Answered(Gone) ==> !r.present)
  }

  /** What the current attempt's call is doing tells how far the releases went. */
  predicate Progress(r: Retention) {
    && (forall c :: c in r.calls ==> InOrder(r, r.calls[c]))
    && r.leaderReleases == (if r.flag || HolderIs(r, WritingFlag) then 1 else 0)
    && r.slotReleases == (if !r.present || HolderIs(r, Removing) then 1 else 0)
    && (!r.present ==> r.flag)
    && (r.leaderReleases == 1 ==>
         r.released.Some? && r.released.value in r.calls
         && Evidence(r.calls[r.released.value]))
  }

  /** Its own count was empty and its exit was committed, and it is past them. */
  predicate Evidence(k: Call) {
    k.worker == Published(Empty) && k.exitKnown
    && !k.place.Trying? && !k.place.Starting? && !k.place.Awaiting? && !k.place.Releasing?
  }

  predicate HolderIs(r: Retention, place: CallPlace) {
    r.attempt.Some? && r.attempt.value in r.calls && r.calls[r.attempt.value].place == place
  }

  predicate Inv(r: Retention) {
    OneAttempt(r) && Progress(r)
  }

  lemma CallsFit(flag: bool, k: Call, step: Step)
    requires CallEnabled(k, step) && HoldersFit(k)
    ensures HoldersFit(CallMoved(flag, k, step))
    ensures k.holders > 0 || (step.WorkerPublishes? && k.place.Answered?)
    ensures Evidence(k) ==> Evidence(CallMoved(flag, k, step))
  {
  }

  lemma StepKeepsOneAttempt(r: Retention, step: Step)
    requires Enabled(r, step) && OneAttempt(r)
    ensures OneAttempt(Next(r, step))
  {
    hide HoldersFit, CallEnabled;
    FreshCallsFit();
    if !step.Begin? {
      assert HoldersFit(r.calls[step.c]);
      CallsFit(r.flag, r.calls[step.c], step);
      HoldersAreNotNegative(CallMoved(r.flag, r.calls[step.c], step));
    }
  }

  lemma HoldersAreNotNegative(k: Call)
    requires HoldersFit(k)
    ensures k.holders >= 0
  {
  }

  lemma FreshCallsFit()
    ensures HoldersFit(Call(Trying, 1, NoWorker, false)) && HoldersFit(Call(Answered(Gone), 0, NoWorker, false))
    ensures HoldersFit(Call(Answered(NotGone), 0, NoWorker, false))
  {
  }

  /** Every call but the current attempt's was answered. */
  lemma OthersWereAnswered(r: Retention, c: CallId)
    requires OneAttempt(r) && c in r.calls && r.attempt != Some(c)
    ensures r.calls[c].place.Answered?
  {
    assert HoldersFit(r.calls[c]);
  }

  /** The entry's fields change only under the current attempt. */
  lemma OnlyTheAttemptChangesTheEntry(r: Retention, step: Step)
    requires Enabled(r, step) && OneAttempt(r) && r.attempt != Some(step.c)
    ensures var t := Next(r, step);
            && t.flag == r.flag && t.present == r.present && t.leaderReleases == r.leaderReleases
            && t.slotReleases == r.slotReleases && t.released == r.released
            && (r.attempt.Some? ==> t.attempt == r.attempt)
  {
    if !step.Begin? {
      OthersWereAnswered(r, step.c);
    }
  }

  lemma AttemptStepsInOrder(r: Retention, step: Step)
    requires Enabled(r, step) && !step.Begin? && Inv(r) && r.attempt == Some(step.c)
    ensures InOrder(Next(r, step), Next(r, step).calls[step.c])
  {
    assert InOrder(r, r.calls[step.c]) && HoldersFit(r.calls[step.c]);
    hide OneAttempt, Evidence;
  }

  lemma StepKeepsOrder(r: Retention, step: Step)
    requires Enabled(r, step) && Inv(r)
    ensures var t := Next(r, step); forall c :: c in t.calls ==> InOrder(t, t.calls[c])
  {
    var t := Next(r, step);
    if !step.Begin? && r.attempt == Some(step.c) {
      AttemptStepsInOrder(r, step);
    } else {
      OnlyTheAttemptChangesTheEntry(r, step);
      if !step.Begin? {
        OthersWereAnswered(r, step.c);
      }
    }
    forall c | c in t.calls ensures InOrder(t, t.calls[c]) {
      if c != step.c {
        assert t.calls[c] == r.calls[c] && InOrder(r, r.calls[c]);
        if r.attempt != Some(c) {
          OthersWereAnswered(r, c);
        }
      } else if step.Begin? || r.attempt != Some(c) {
        assert !step.Begin? ==> InOrder(r, r.calls[c]);
      }
    }
  }

  lemma StepKeepsProgress(r: Retention, step: Step)
    requires Enabled(r, step) && Inv(r)
    ensures Progress(Next(r, step))
  {
    var t := Next(r, step);
    StepKeepsOrder(r, step);
    StepKeepsOneAttempt(r, step);
    StepKeepsCounts(r, step);
    StepKeepsEvidence(r, step);
  }

  lemma AttemptKeepsCounts(r: Retention, step: Step)
    requires Enabled(r, step) && !step.Begin? && Inv(r) && r.attempt == Some(step.c)
    ensures CountsFit(Next(r, step))
  {
    assert InOrder(r, r.calls[step.c]) && HoldersFit(r.calls[step.c]);
    hide OneAttempt, Evidence;
  }

  predicate CountsFit(r: Retention) {
    && r.leaderReleases == (if r.flag || HolderIs(r, WritingFlag) then 1 else 0)
    && r.slotReleases == (if !r.present || HolderIs(r, Removing) then 1 else 0)
    && (!r.present ==> r.flag)
  }

  lemma StepKeepsCounts(r: Retention, step: Step)
    requires Enabled(r, step) && Inv(r)
    ensures CountsFit(Next(r, step))
  {
    if r.attempt == Some(step.c) && !step.Begin? {
      AttemptKeepsCounts(r, step);
    } else {
      OnlyTheAttemptChangesTheEntry(r, step);
      if !step.Begin? {
        OthersWereAnswered(r, step.c);
      }
      hide OneAttempt, Evidence, InOrder, CallMoved;
    }
  }

  lemma StepKeepsEvidence(r: Retention, step: Step)
    requires Enabled(r, step) && Inv(r)
    ensures var t := Next(r, step);
            t.leaderReleases == 1 ==> t.released.Some? && t.released.value in t.calls && Evidence(t.calls[t.released.value])
  {
    if !step.Begin? {
      assert InOrder(r, r.calls[step.c]) && HoldersFit(r.calls[step.c]);
      CallsFit(r.flag, r.calls[step.c], step);
    }
    hide OneAttempt;
  }

  lemma EveryStepKeepsTheInvariant(r: Retention, step: Step)
    requires Enabled(r, step) && Inv(r)
    ensures Inv(Next(r, step))
  {
    StepKeepsOneAttempt(r, step);
    StepKeepsProgress(r, step);
  }

  lemma RetainedIsSound()
    ensures Inv(RETAINED)
  {
  }

  // ---------------------------------------------------------------- over every run

  predicate Possible(r: Retention, steps: seq<Step>)
    decreases |steps|
  {
    steps == [] || (Enabled(r, steps[0]) && Possible(Next(r, steps[0]), steps[1..]))
  }

  function After(r: Retention, steps: seq<Step>): Retention
    requires Possible(r, steps)
    decreases |steps|
  {
    if steps == [] then r else After(Next(r, steps[0]), steps[1..])
  }

  lemma {:induction false} RunsKeepTheInvariant(r: Retention, steps: seq<Step>)
    requires Possible(r, steps) && Inv(r)
    ensures Inv(After(r, steps))
    decreases |steps|
  {
    if steps != [] {
      EveryStepKeepsTheInvariant(r, steps[0]);
      hide Inv, Next, Enabled;
      RunsKeepTheInvariant(Next(r, steps[0]), steps[1..]);
    }
  }

  /** However calls, cancellations and failing worker starts interleave, one attempt at most is under
      way, and its holders are exactly its live call and its live worker. */
  lemma OneAttemptAtATime(first: Retention, steps: seq<Step>, c: CallId)
    requires Inv(first) && Possible(first, steps) && c in After(first, steps).calls
    ensures var r := After(first, steps);
            && r.calls[c].holders == CallHolds(r.calls[c]) + WorkerHolds(r.calls[c])
            && (CallHolds(r.calls[c]) + WorkerHolds(r.calls[c]) > 0 <==> r.attempt == Some(c))
  {
    hide Possible, After, Next, Enabled;
    RunsKeepTheInvariant(first, steps);
    assert HoldersFit(After(first, steps).calls[c]);
  }

  /** The leader's release and the slot's come at most once each and in that order, the first only in
      an attempt whose own count was empty and whose exit was committed; and a call that answers that
      the group is gone has both behind it. */
  lemma GoneMeansReleased(first: Retention, steps: seq<Step>, c: CallId)
    requires Inv(first) && Possible(first, steps) && c in After(first, steps).calls
    ensures var r := After(first, steps);
            && r.leaderReleases <= 1 && r.slotReleases <= r.leaderReleases
            && (r.leaderReleases == 1 ==> r.released.Some? && r.released.value in r.calls
                                          && r.calls[r.released.value].worker == Published(Empty)
                                          && r.calls[r.released.value].exitKnown)
            && (r.calls[c].place == Answered(Gone) ==> r.leaderReleases == 1 && r.slotReleases == 1 && !r.present)
  {
    hide Possible, After, Next, Enabled;
    RunsKeepTheInvariant(first, steps);
    var r := After(first, steps);
    assert InOrder(r, r.calls[c]);
    if HolderIs(r, Removing) {
      assert InOrder(r, r.calls[r.attempt.value]);
    }
  }

  /** When no call and no worker is live, the next call is not turned away: a failed or cancelled attempt
      never bars a later one. */
  lemma IdleRetentionsAcceptTheNextCall(r: Retention, c: CallId)
    requires Inv(r) && c !in r.calls
    requires forall d :: d in r.calls ==> CallHolds(r.calls[d]) + WorkerHolds(r.calls[d]) == 0
    ensures Begun(r, c).calls[c].place == if r.present then Trying else Answered(Gone)
  {
    assert forall d :: d in r.calls ==> HoldersFit(r.calls[d]);
  }
}
