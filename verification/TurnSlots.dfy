/** A pool's slots across the reap of a turn's process group and the retention that follows when the group cannot
    be shown empty (src/agent_runtime/anchored_turn.py:80-207 with src/agent_runtime/lost_groups.py:84-178). The
    leader, the retention and the reap take their steps in any order; what the reap does between two awaits
    is a step of its own. */
module TurnSlots {
  import opened Wire
  import AL = AnchoredLeaders
  import LG = LostGroups

  /** Where a turn is: its start, its body, the regions of its reap, and how the reap ended. */
  datatype Place =
    | Opening | NotStarted | Body
    | Offering | Grace | Killing | AwaitingExit | Releasing(exitKnown: bool) | Freeing | Retaining
    | Freed | Retained

  datatype Freer = ByStart | ByReap | ByRetention

  /** The reservation is in its pool while `held`; `freed` logs who took it out. `emptied` says that the reap's own
      last count was empty, in time. */
  datatype Turn = Turn(
    place: Place, leader: AL.Leader, retention: Option<LG.Retention>, held: bool, freed: seq<Freer>, emptied: bool)

  /** What an attempt of the reap to kill and count meets. */
  datatype Killed = Again | Confirmed | Unconfirmed | Raised

  datatype Step =
    | Opened
    | OpenFailed
    | LeaderStep(leader: AL.Step)
    | ReapBegins
    | ReapSignals(reused: bool, raised: bool)
    | GraceEnds(raised: bool)
    | ReapKills(reused: bool, killed: Killed)
    | ExitAwaited(published: bool, raised: bool)
    | ReapReleases(raised: bool)
    | ReapFrees
    | ReapRetains
    | RetentionStep(step: LG.Step, reused: bool)

  const OWNED := AL.Next(AL.JUST_STARTED, AL.Launched)

  const RESERVED := Turn(Opening, OWNED, None, true, [], false)

  /** A signal is sent only to a leader that is, and stays, anchored; otherwise the call raises. */
  predicate Sent(l: AL.Leader, reused: bool) {
    AL.Anchored(l.status.state) && AL.Anchored(AL.Signalled(l, reused).status.state)
  }

  function Signal(reused: bool): AL.Step {
    AL.SignalGroup(reused)
  }

  /** The retention's steps as its leader allows them: a count is one of a group that was signalled, the exit is
      known when the leader has a return code, and a release that returns has released the leader. */
  predicate RetentionFits(l: AL.Leader, step: LG.Step, reused: bool) {
    match step
    case WorkerCounts(_, count) => AL.Enabled(l, Signal(reused)) && (!count.Failed? ==> Sent(l, reused))
    case Resume(_, exitKnown) => exitKnown == l.status.returncode.Some?
    case ReleaseLeader(_, ok) => AL.Enabled(l, AL.Release) && (ok ==> AL.Released(l).status.state.RELEASED?)
    case _ => true
  }

  predicate Enabled(t: Turn, step: Step) {
    match step
    case Opened => t.place.Opening?
    case OpenFailed => t.place.Opening?
    case LeaderStep(s) => !t.place.Opening? && !t.place.NotStarted? && !s.Release? && AL.Enabled(t.leader, s)
    case ReapBegins => t.place.Body?
    case ReapSignals(reused, raised) =>
      t.place.Offering? && AL.Enabled(t.leader, Signal(reused)) && (!raised ==> Sent(t.leader, reused))
    case GraceEnds(_) => t.place.Grace?
    case ReapKills(reused, killed) =>
      t.place.Killing? && AL.Enabled(t.leader, Signal(reused)) && (!killed.Raised? ==> Sent(t.leader, reused))
    case ExitAwaited(published, raised) => t.place.AwaitingExit? && (published && !raised ==> t.leader.status.returncode.Some?)
    case ReapReleases(raised) =>
      t.place.Releasing? && AL.Enabled(t.leader, AL.Release)
      && (t.place.exitKnown && !raised ==> AL.Released(t.leader).status.state.RELEASED?)
    case ReapFrees => t.place.Freeing?
    case ReapRetains => t.place.Retaining?
    case RetentionStep(s, reused) =>
      t.retention.Some? && LG.Enabled(t.retention.value, s) && RetentionFits(t.leader, s, reused)
  }

  function LeaderAfter(l: AL.Leader, step: LG.Step, reused: bool): AL.Leader
    requires RetentionFits(l, step, reused)
  {
    match step
    case WorkerCounts(_, _) => AL.Next(l, Signal(reused))
    case ReleaseLeader(_, _) => AL.Next(l, AL.Release)
    case _ => l
  }

  /** `pool.release`, which discards a reservation it may have discarded before. */
  function SlotReleased(t: Turn, freer: Freer): Turn {
    t.(held := false, freed := t.freed + if t.held then [freer] else [])
  }

  function Next(t: Turn, step: Step): Turn
    requires Enabled(t, step)
  {
    match step
    case Opened => t.(place := Body)
    case OpenFailed => SlotReleased(t, ByStart).(place := NotStarted)
    case LeaderStep(s) => t.(leader := AL.Next(t.leader, s))
    case ReapBegins => t.(place := if t.leader.status.returncode.None? then Offering else Killing)
    case ReapSignals(reused, raised) =>
      t.(leader := AL.Next(t.leader, Signal(reused)), place := if raised then Retaining else Grace)
    case GraceEnds(raised) => t.(place := if raised then Retaining else Killing)
    case ReapKills(reused, killed) =>
      t.(leader := AL.Next(t.leader, Signal(reused)), emptied := killed.Confirmed?,
         place := match killed case Again => Killing case Confirmed => AwaitingExit case _ => Retaining)
    case ExitAwaited(published, raised) => t.(place := if raised then Retaining else Releasing(published))
    case ReapReleases(raised) =>
      if !t.place.exitKnown then t.(place := Retaining)
      else t.(leader := AL.Next(t.leader, AL.Release), place := if raised then Retaining else Freeing)
    case ReapFrees => SlotReleased(t, ByReap).(place := Freed)
    case ReapRetains => t.(place := Retained, retention := Some(LG.RETAINED))
    case RetentionStep(s, reused) =>
      var u := if s.ReleaseSlot? then SlotReleased(t, ByRetention) else t;
      u.(leader := LeaderAfter(t.leader, s, reused), retention := Some(LG.Next(t.retention.value, s)))
  }

  // ---------------------------------------------------------------- the invariant

  predicate LeaderOwned(t: Turn) {
    AL.Inv(t.leader) && t.leader.ownership.Owned?
  }

  /** The reap comes to the slot only after its own empty count and its own release of the leader. */
  predicate ReapFits(t: Turn) {
    && (t.place.AwaitingExit? || t.place.Releasing? || t.place.Freeing? || t.place.Freed? ==> t.emptied)
    && (t.place.Releasing? && t.place.exitKnown ==> t.leader.status.returncode.Some?)
    && (t.place.Freeing? || t.place.Freed? ==> t.leader.status.state.RELEASED?)
    && (t.retention.Some? <==> t.place.Retained?)
    && (t.retention.None? ==> (t.held <==> !t.place.NotStarted? && !t.place.Freed?))
  }

  /** Who freed the slot tells how the turn ended, and nobody freed it twice. */
  predicate FreedFits(t: Turn) {
    t.freed == if t.held then [] else if t.place.NotStarted? then [ByStart] else if t.place.Freed? then [ByReap] else [ByRetention]
  }

  /** The retention comes to the slot only after its own release of the leader; until then the slot is held. */
  predicate RetentionHolds(t: Turn) {
    t.retention.Some? ==>
      var r := t.retention.value;
      && LG.Inv(r)
      && (r.leaderReleases == 0 ==> t.held)
      && (r.leaderReleases > 0 ==> t.leader.status.state.RELEASED?)
      && (r.slotReleases > 0 ==> !t.held)
  }

  predicate Inv(t: Turn) {
    LeaderOwned(t) && ReapFits(t) && FreedFits(t) && RetentionHolds(t)
  }

  lemma ReservedIsSound()
    ensures Inv(RESERVED)
  {
    hide AL.Inv;
    AL.StartedLeadersAreSound();
    AL.EveryStepKeepsTheInvariant(AL.JUST_STARTED, AL.Launched);
  }

  /** A step of the leader's keeps what it has come to: a return code and a last state stay. */
  lemma LeadersMoveOn(l: AL.Leader, step: AL.Step)
    requires AL.Inv(l) && l.ownership.Owned? && AL.Enabled(l, step)
    ensures var m := AL.Next(l, step);
            && AL.Inv(m) && m.ownership.Owned?
            && (l.status.returncode.Some? ==> m.status.returncode.Some?)
            && (l.status.state.RELEASED? ==> m.status.state.RELEASED?)
  {
    AL.EveryStepKeepsTheInvariant(l, step);
    hide AL.Inv;
  }

  lemma StepKeepsTheLeader(t: Turn, step: Step)
    requires Enabled(t, step) && LeaderOwned(t)
    ensures LeaderOwned(Next(t, step))
    ensures t.leader.status.returncode.Some? ==> Next(t, step).leader.status.returncode.Some?
    ensures t.leader.status.state.RELEASED? ==> Next(t, step).leader.status.state.RELEASED?
  {
    hide AL.Inv, AL.Next, AL.Enabled, AL.Signalled, AL.Released;
    match step {
      case LeaderStep(s) => LeadersMoveOn(t.leader, s);
      case ReapSignals(reused, _) => LeadersMoveOn(t.leader, Signal(reused));
      case ReapKills(reused, _) => LeadersMoveOn(t.leader, Signal(reused));
      case ReapReleases(_) => LeadersMoveOn(t.leader, AL.Release);
      case RetentionStep(s, reused) =>
        if s.WorkerCounts? {
          LeadersMoveOn(t.leader, Signal(reused));
        } else if s.ReleaseLeader? {
          LeadersMoveOn(t.leader, AL.Release);
        }
      case _ =>
    }
  }

  lemma ReleasesRelease(l: AL.Leader)
    requires AL.Enabled(l, AL.Release)
    ensures AL.Next(l, AL.Release) == AL.Released(l)
  {
  }

  lemma StepKeepsTheReap(t: Turn, step: Step)
    requires Enabled(t, step) && Inv(t)
    ensures ReapFits(Next(t, step)) && FreedFits(Next(t, step))
  {
    StepKeepsTheLeader(t, step);
    if step.ReapReleases? {
      ReleasesRelease(t.leader);
    }
    hide AL.Inv, AL.Next, AL.Enabled, AL.Signalled, AL.Released, LG.Inv, LG.Next, LG.Enabled;
  }

  /** What a step of the retention's does to its two counts. */
  lemma RetentionCounts(r: LG.Retention, step: LG.Step)
    requires LG.Inv(r) && LG.Enabled(r, step)
    ensures var s := LG.Next(r, step);
            && LG.Inv(s)
            && s.leaderReleases == r.leaderReleases + (if step.ReleaseLeader? && step.ok then 1 else 0)
            && s.slotReleases == r.slotReleases + (if step.ReleaseSlot? && step.ok then 1 else 0)
            && (step.ReleaseSlot? ==> r.leaderReleases > 0)
            && (step.ReleaseLeader? ==> r.leaderReleases == 0)
  {
    LG.EveryStepKeepsTheInvariant(r, step);
    if !step.Begin? {
      assert LG.InOrder(r, r.calls[step.c]);
    }
    hide LG.Inv, LG.OneAttempt;
  }

  lemma RetentionStepKeeps(t: Turn, s: LG.Step, reused: bool)
    requires Enabled(t, RetentionStep(s, reused)) && Inv(t)
    ensures RetentionHolds(Next(t, RetentionStep(s, reused)))
  {
    hide AL.Inv, AL.Next, AL.Enabled, AL.Signalled, AL.Released, LG.Inv, LG.Next, LG.Enabled, ReapFits, FreedFits;
    StepKeepsTheLeader(t, RetentionStep(s, reused));
    RetentionCounts(t.retention.value, s);
    if s.ReleaseLeader? {
      ReleasesRelease(t.leader);
    }
  }

  lemma StepKeepsTheRetention(t: Turn, step: Step)
    requires Enabled(t, step) && Inv(t)
    ensures RetentionHolds(Next(t, step))
  {
    hide AL.Inv, AL.Next, AL.Enabled, AL.Signalled, AL.Released, LG.Inv, LG.Next, LG.Enabled, FreedFits;
    StepKeepsTheLeader(t, step);
    if step.RetentionStep? {
      RetentionStepKeeps(t, step.step, step.reused);
    } else {
      LG.RetainedIsSound();
    }
  }

  lemma EveryStepKeepsTheInvariant(t: Turn, step: Step)
    requires Enabled(t, step) && Inv(t)
    ensures Inv(Next(t, step))
  {
    StepKeepsTheLeader(t, step);
    StepKeepsTheReap(t, step);
    StepKeepsTheRetention(t, step);
    hide LeaderOwned, ReapFits, FreedFits, RetentionHolds, Next, Enabled;
  }

  // ---------------------------------------------------------------- over every run

  predicate Possible(t: Turn, steps: seq<Step>)
    decreases |steps|
  {
    steps == [] || (Enabled(t, steps[0]) && Possible(Next(t, steps[0]), steps[1..]))
  }

  function After(t: Turn, steps: seq<Step>): Turn
    requires Possible(t, steps)
    decreases |steps|
  {
    if steps == [] then t else After(Next(t, steps[0]), steps[1..])
  }

  lemma {:induction false} RunsKeepTheInvariant(t: Turn, steps: seq<Step>)
    requires Possible(t, steps) && Inv(t)
    ensures Inv(After(t, steps))
    decreases |steps|
  {
    if steps != [] {
      EveryStepKeepsTheInvariant(t, steps[0]);
      hide Inv, Next, Enabled;
      RunsKeepTheInvariant(Next(t, steps[0]), steps[1..]);
    }
  }

  /** The retention's own evidence: a call of its counted the group empty, knew the exit and released the leader. */
  predicate RetentionEvidence(r: LG.Retention) {
    && r.leaderReleases == 1 && r.released.Some? && r.released.value in r.calls
    && r.calls[r.released.value].worker == LG.Published(LG.Empty) && r.calls[r.released.value].exitKnown
  }

  /** However the leader, the reap and the retention's calls interleave, a slot is freed at most once: by a start
      that failed, by the reap, or by the retention; and by the latter two only after their own empty count, a
      known exit and their own release of the leader, which is RELEASED from then on. */
  lemma ASlotIsFreedOnce(steps: seq<Step>)
    requires Possible(RESERVED, steps)
    ensures var t := After(RESERVED, steps);
            && |t.freed| <= 1 && (t.held <==> t.freed == [])
            && (t.freed == [ByStart] ==> t.place.NotStarted?)
            && (t.freed == [ByReap] ==> t.place.Freed? && t.emptied && t.retention.None?)
            && (t.freed == [ByRetention] ==> t.place.Retained? && t.retention.Some? && RetentionEvidence(t.retention.value))
            && (t.freed == [ByReap] || t.freed == [ByRetention] ==>
                  t.leader.status.state.RELEASED? && t.leader.status.returncode.Some?)
  {
    ReservedIsSound();
    RunsKeepTheInvariant(RESERVED, steps);
    var t := After(RESERVED, steps);
    ReleasedHasACode(t.leader);
    if t.retention.Some? {
      RetentionsHaveEvidence(t.retention.value);
    }
    hide After, Possible, AL.Inv, LG.Inv;
  }

  lemma ReleasedHasACode(l: AL.Leader)
    requires AL.Inv(l)
    ensures l.status.state.RELEASED? ==> l.status.returncode.Some?
  {
  }

  lemma RetentionsHaveEvidence(r: LG.Retention)
    requires LG.Inv(r)
    ensures r.leaderReleases > 0 ==> RetentionEvidence(r)
    ensures forall c :: c in r.calls && r.calls[c].place == LG.Answered(LG.Gone) ==> r.slotReleases > 0
  {
    hide LG.OneAttempt;
    assert forall c :: c in r.calls ==> LG.InOrder(r, r.calls[c]);
  }

  /** A turn that is reaped without a retained group, and a retention that answers that its group is gone, have
      freed the slot; as long as neither is so, a started turn keeps it. */
  lemma SlotsAreNeitherLostNorFreedEarly(steps: seq<Step>, c: LG.CallId)
    requires Possible(RESERVED, steps)
    ensures var t := After(RESERVED, steps);
            && (t.place.Freed? || t.place.NotStarted? ==> !t.held)
            && (t.retention.Some? && c in t.retention.value.calls && t.retention.value.calls[c].place == LG.Answered(LG.Gone) ==> !t.held)
            && (t.retention.None? && !t.place.Freed? && !t.place.NotStarted? ==> t.held)
            && (t.retention.Some? && t.retention.value.leaderReleases == 0 ==> t.held)
  {
    ReservedIsSound();
    RunsKeepTheInvariant(RESERVED, steps);
    var t := After(RESERVED, steps);
    if t.retention.Some? {
      RetentionsHaveEvidence(t.retention.value);
    }
    hide After, Possible, AL.Inv, LG.Inv;
  }

  // ---------------------------------------------------------------- the pool

  type TurnId = nat

  datatype Pool = Pool(limit: nat, reservations: set<TurnId>, turns: map<TurnId, Turn>)

  datatype PoolStep = Reserve(id: TurnId) | TurnStep(id: TurnId, step: Step)

  predicate PoolEnabled(p: Pool, step: PoolStep) {
    match step
    case Reserve(id) => id !in p.turns
    case TurnStep(id, s) => id in p.turns && Enabled(p.turns[id], s)
  }

  function PoolNext(p: Pool, step: PoolStep): Pool
    requires PoolEnabled(p, step)
  {
    match step
    case Reserve(id) =>
      if |p.reservations| >= p.limit then p
      else p.(reservations := p.reservations + {id}, turns := p.turns[id := RESERVED])
    case TurnStep(id, s) =>
      var t := Next(p.turns[id], s);
      p.(reservations := if t.held then p.reservations else p.reservations - {id}, turns := p.turns[id := t])
  }

  predicate PoolInv(p: Pool) {
    && |p.reservations| <= p.limit && p.reservations <= p.turns.Keys
    && forall id :: id in p.turns ==> Inv(p.turns[id]) && (id in p.reservations <==> p.turns[id].held)
  }

  lemma NothingIsTakenBack(t: Turn, step: Step)
    requires Enabled(t, step)
    ensures Next(t, step).held ==> t.held
  {
  }

  lemma PoolStepKeeps(p: Pool, step: PoolStep)
    requires PoolEnabled(p, step) && PoolInv(p)
    ensures PoolInv(PoolNext(p, step))
  {
    hide Inv, Next, Enabled;
    match step {
      case Reserve(id) => ReservedIsSound();
      case TurnStep(id, s) =>
        EveryStepKeepsTheInvariant(p.turns[id], s);
        NothingIsTakenBack(p.turns[id], s);
        TurnsKeep(p, id, Next(p.turns[id], s));
    }
  }

  lemma TurnsKeep(p: Pool, id: TurnId, t: Turn)
    requires PoolInv(p) && id in p.turns && Inv(t) && (t.held ==> p.turns[id].held)
    ensures PoolInv(p.(reservations := if t.held then p.reservations else p.reservations - {id}, turns := p.turns[id := t]))
  {
    hide Inv;
    if id in p.reservations {
      FewerAreLeft(p.reservations, id);
    }
  }

  lemma FewerAreLeft(s: set<TurnId>, id: TurnId)
    requires id in s
    ensures |s - {id}| == |s| - 1
  {
  }

  predicate PoolPossible(p: Pool, steps: seq<PoolStep>)
    decreases |steps|
  {
    steps == [] || (PoolEnabled(p, steps[0]) && PoolPossible(PoolNext(p, steps[0]), steps[1..]))
  }

  function PoolAfter(p: Pool, steps: seq<PoolStep>): Pool
    requires PoolPossible(p, steps)
    decreases |steps|
  {
    if steps == [] then p else PoolAfter(PoolNext(p, steps[0]), steps[1..])
  }

  lemma {:induction false} PoolRunsKeep(p: Pool, steps: seq<PoolStep>)
    requires PoolPossible(p, steps) && PoolInv(p)
    ensures PoolInv(PoolAfter(p, steps)) && PoolAfter(p, steps).limit == p.limit
    decreases |steps|
  {
    if steps != [] {
      PoolStepKeeps(p, steps[0]);
      hide PoolInv;
      PoolRunsKeep(PoolNext(p, steps[0]), steps[1..]);
    }
  }

  /** Over all turns of a pool: at most `limit` slots are taken, and one is taken exactly while neither a failed
      start, nor its turn's reap, nor its group's retention freed it. */
  lemma SlotsAreConserved(limit: nat, steps: seq<PoolStep>, id: TurnId)
    requires PoolPossible(Pool(limit, {}, map[]), steps)
    ensures var p := PoolAfter(Pool(limit, {}, map[]), steps);
            && |p.reservations| <= limit
            && (id in p.reservations <==> id in p.turns && p.turns[id].freed == [])
            && (id in p.turns ==> |p.turns[id].freed| <= 1)
  {
    PoolRunsKeep(Pool(limit, {}, map[]), steps);
    hide PoolAfter, PoolPossible, LeaderOwned, ReapFits, RetentionHolds;
  }
}
