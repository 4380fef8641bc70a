/** How an attempt to confirm a lost group ends, and that it does: what turns one back, and that one nothing turns
    back releases the leader and the slot and answers that the group is gone. */
module LostGroupEndings {
  import opened Wire
  import opened LostGroups

  // ---------------------------------------------------------------- what a step decides

  /** A call that begins is answered at once if the group is no longer retained, or while another attempt is under
      way; otherwise the attempt is its own. */
  lemma ABeginningIsAnsweredOrTries(r: Retention, c: CallId, t: Retention)
    requires Enabled(r, Begin(c)) && t == Next(r, Begin(c))
    ensures t == r.(calls := r.calls[c := t.calls[c]], attempt := t.attempt)
    ensures t.calls[c].place == Answered(Gone) <==> !r.present
    ensures t.calls[c].place == Answered(NotGone) <==> r.present && r.attempt.Some?
    ensures t.calls[c].place == Trying <==> r.present && r.attempt.None?
    ensures if t.calls[c].place == Trying then t.attempt == Some(c) && t.calls[c].holders == 1
            else t.attempt == r.attempt && t.calls[c].holders == 0
    ensures t.calls[c].worker == NoWorker && !t.calls[c].exitKnown
  {
  }

  /** A published count goes on to the leader's release if and only if it was empty and the leader's exit is known; it
      raises exactly when the count failed, and otherwise the group is not gone. */
  lemma ACountDecides(r: Retention, c: CallId, exitKnown: bool, t: Retention)
    requires Enabled(r, Resume(c, exitKnown)) && t == Next(r, Resume(c, exitKnown))
    ensures var count := r.calls[c].worker.count;
            && (t.calls[c].place == Releasing <==> count == Empty && exitKnown)
            && (t.calls[c].place == Leaving(Raised) <==> count == Count.Failed)
            && (t.calls[c].place == Leaving(NotGone) <==> count == NotEmpty || (count == Empty && !exitKnown))
            && (t.calls[c].place == Releasing ==> t.calls[c].exitKnown)
            && t.calls[c].worker == r.calls[c].worker && t.calls[c].holders == r.calls[c].holders
  {
  }

  /** Why an attempt goes no further: a failed start, a failed count, a cancellation or a failed release make it raise,
      a count that is not empty or an exit not known make it answer that the group is not gone; nothing else does. */
  lemma WhyAnAttemptEnds(r: Retention, step: Step, t: Retention)
    requires Enabled(r, step) && !step.Begin? && t == Next(r, step)
    ensures var k, m := r.calls[step.c], t.calls[step.c];
            && (m.place == Leaving(Raised) && m.place != k.place <==>
                  || (step.StartReturns? && step.raised)
                  || (step.Resume? && k.worker.count == Count.Failed)
                  || step.Cancel?
                  || (step.ReleaseLeader? && !step.ok)
                  || (step.ReleaseSlot? && !step.ok))
            && (m.place == Leaving(NotGone) && m.place != k.place <==>
                  step.Resume? && (k.worker.count == NotEmpty || (k.worker.count == Empty && !step.exitKnown)))
            && (m.place == Leaving(Gone) && m.place != k.place <==> step.Remove?)
            && (step.Leave? ==> k.place.Leaving? && m.place == Answered(k.place.answer))
            && (step.Try? ==> m.place == (if r.flag then LeaderReleased else Starting) && (!r.flag ==> m.worker == Unclaimed))
  {
  }

  /** The worker's count is published as it was taken; it holds its attempt from before its start until it has counted,
      or until the start that failed takes its claim. */
  lemma AWorkerPublishesItsCount(r: Retention, step: Step, t: Retention)
    requires Enabled(r, step) && !step.Begin? && t == Next(r, step)
    ensures var k, m := r.calls[step.c], t.calls[step.c];
            && (step.WorkerCounts? ==> m == k.(worker := Counted(step.count)))
            && (step.WorkerLeaves? ==> k.worker.Counted? && m == k.(worker := Left(k.worker.count), holders := k.holders - 1))
            && (step.WorkerPublishes? ==> k.worker.Left? && m == k.(worker := Published(k.worker.count)))
            && (step.WorkerClaims? ==> k.worker.Unclaimed? && m == k.(worker := Counting))
            && (step.Try? && !r.flag ==> m.holders == k.holders + 1)
            && (m.worker.Disowned? && !k.worker.Disowned? <==> step.StartReturns? && step.raised && k.worker.Unclaimed?)
            && (m.worker.Disowned? && !k.worker.Disowned? ==> m.holders == k.holders - 1)
  {
  }

  // ---------------------------------------------------------------- an attempt that nothing turns back

  /** A step that turns no attempt back. */
  predicate Good(step: Step) {
    match step
    case StartReturns(_, raised) => !raised
    case WorkerCounts(_, count) => count == Empty
    case Resume(_, exitKnown) => exitKnown
    case Cancel(_) => false
    case ReleaseLeader(_, ok) => ok
    case ReleaseSlot(_, ok) => ok
    case _ => true
  }

  /** Every step of call `c` is one that turns no attempt back; the other calls take any steps. */
  predicate AllGood(steps: seq<Step>, c: CallId) {
    forall i :: 0 <= i < |steps| && steps[i].c == c ==> Good(steps[i])
  }

  /** The attempt of `c` is under way or has ended well. */
  predicate OnItsWay(k: Call) {
    && !(k.place.Leaving? && k.place != Leaving(Gone)) && !(k.place.Answered? && k.place != Answered(Gone))
    && (k.worker.Counted? || k.worker.Left? || k.worker.Published? ==> k.worker.count == Empty)
  }

  /** How much of its attempt is left for a call and its worker. */
  function StillToDo(k: Call): nat {
    (match k.place
     case Trying => 20 case Starting => 15 case Awaiting => 14 case Releasing => 7 case WritingFlag => 6
     case LeaderReleased => 5 case Removing => 4 case Leaving(_) => 3 case Answered(_) => 0)
    + (match k.worker
       case Unclaimed => 4 case Counting => 3 case Counted(_) => 2 case Left(_) => 1 case _ => 0)
  }

  /** Every step of a call brings its attempt nearer to its end. */
  lemma EveryStepGoesOn(r: Retention, step: Step)
    requires Enabled(r, step) && !step.Begin?
    ensures StillToDo(Next(r, step).calls[step.c]) < StillToDo(r.calls[step.c])
  {
  }

  /** The next step of an attempt that is on its way. */
  function NextGood(k: Call, c: CallId): Step
    requires !k.place.Answered?
  {
    match k.place
    case Trying => Try(c)
    case Starting => StartReturns(c, false)
    case Awaiting =>
      (match k.worker
       case Unclaimed => WorkerClaims(c) case Counting => WorkerCounts(c, Empty) case Counted(_) => WorkerLeaves(c)
       case Left(_) => WorkerPublishes(c) case _ => Resume(c, true))
    case Releasing => ReleaseLeader(c, true)
    case WritingFlag => WriteFlag(c)
    case LeaderReleased => ReleaseSlot(c, true)
    case Removing => Remove(c)
    case Leaving(_) => Leave(c)
  }

  /** An attempt is never stuck: until its call is answered, some step of its own that turns nothing back can come. */
  lemma AnAttemptCanGoOn(r: Retention, c: CallId)
    requires Inv(r) && c in r.calls && !r.calls[c].place.Answered?
    ensures var step := NextGood(r.calls[c], c); step.c == c && Good(step) && Enabled(r, step)
  {
    assert HoldersFit(r.calls[c]);
  }

  lemma GoodStepsKeepOn(r: Retention, step: Step, c: CallId)
    requires Inv(r) && Enabled(r, step) && c in r.calls && OnItsWay(r.calls[c]) && (step.c == c ==> Good(step))
    ensures c in Next(r, step).calls && OnItsWay(Next(r, step).calls[c])
  {
    hide Inv;
    TheCallFits(r, c);
  }

  lemma TheCallFits(r: Retention, c: CallId)
    requires Inv(r) && c in r.calls
    ensures HoldersFit(r.calls[c]) && InOrder(r, r.calls[c])
  {
  }

  lemma {:induction false} GoodRunsKeepOn(r: Retention, steps: seq<Step>, c: CallId)
    requires Inv(r) && Possible(r, steps) && c in r.calls && OnItsWay(r.calls[c]) && AllGood(steps, c)
    ensures c in After(r, steps).calls && OnItsWay(After(r, steps).calls[c])
    decreases |steps|
  {
    hide Inv, Next, Enabled, OnItsWay;
    if steps != [] {
      EveryStepKeepsTheInvariant(r, steps[0]);
      GoodStepsKeepOn(r, steps[0], c);
      assert AllGood(steps[1..], c) by {
        forall i | 0 <= i < |steps[1..]| && steps[1..][i].c == c ensures Good(steps[1..][i]) {
          assert steps[1..][i] == steps[i + 1];
        }
      }
      GoodRunsKeepOn(Next(r, steps[0]), steps[1..], c);
    }
  }

  /** From every retention without an attempt under way: whatever the other calls do meanwhile, a call whose own steps
      turn nothing back can only answer that the group is gone, and then leader and slot were released, once each;
      until it has answered, its attempt can go on, and at most 25 steps of its own are left. */
  lemma AGoodAttemptConfirmsTheGroup(r: Retention, c: CallId, steps: seq<Step>)
    requires Inv(r) && r.present && r.attempt.None? && c !in r.calls
    requires Possible(r, [Begin(c)] + steps) && AllGood(steps, c)
    ensures var t := After(r, [Begin(c)] + steps);
            && c in t.calls
            && (t.calls[c].place.Answered? ==>
                 t.calls[c].place == Answered(Gone) && !t.present && t.leaderReleases == 1 && t.slotReleases == 1)
            && (!t.calls[c].place.Answered? ==>
                 Enabled(t, NextGood(t.calls[c], c)) && Good(NextGood(t.calls[c], c)) && StillToDo(t.calls[c]) < 25)
  {
    var all := [Begin(c)] + steps;
    var begun := Next(r, Begin(c));
    assert all[0] == Begin(c) && all[1..] == steps;
    assert Possible(begun, steps) && After(r, all) == After(begun, steps);
    EveryStepKeepsTheInvariant(r, Begin(c));
    assert OnItsWay(begun.calls[c]);
    hide Inv, Next, Enabled, OnItsWay, Possible, After;
    GoodRunsKeepOn(begun, steps, c);
    RunsKeepTheInvariant(begun, steps);
    AnsweredWellOrOnItsWay(After(begun, steps), c);
  }

  lemma AnsweredWellOrOnItsWay(t: Retention, c: CallId)
    requires Inv(t) && c in t.calls && OnItsWay(t.calls[c])
    ensures t.calls[c].place.Answered? ==>
              t.calls[c].place == Answered(Gone) && !t.present && t.leaderReleases == 1 && t.slotReleases == 1
    ensures !t.calls[c].place.Answered? ==>
              Enabled(t, NextGood(t.calls[c], c)) && Good(NextGood(t.calls[c], c)) && StillToDo(t.calls[c]) < 25
  {
    assert InOrder(t, t.calls[c]);
    if !t.calls[c].place.Answered? {
      AnAttemptCanGoOn(t, c);
    }
  }

  /** The steps that complete the attempt of `c`, one after the other. */
  ghost function Completion(r: Retention, c: CallId): seq<Step>
    requires Inv(r) && c in r.calls
    decreases StillToDo(r.calls[c])
  {
    if r.calls[c].place.Answered? then []
    else
      AnAttemptCanGoOn(r, c);
      var step := NextGood(r.calls[c], c);
      EveryStepGoesOn(r, step);
      EveryStepKeepsTheInvariant(r, step);
      [step] + Completion(Next(r, step), c)
  }

  lemma {:induction false} CompletionsAnswer(r: Retention, c: CallId)
    requires Inv(r) && c in r.calls && OnItsWay(r.calls[c])
    ensures var steps := Completion(r, c);
            Possible(r, steps) && c in After(r, steps).calls && After(r, steps).calls[c].place == Answered(Gone)
    decreases StillToDo(r.calls[c])
  {
    hide Inv, Next, Enabled, OnItsWay, NextGood, StillToDo, Good;
    if r.calls[c].place.Answered? {
      AnsweredOnItsWay(r.calls[c]);
    } else {
      var step := NextGood(r.calls[c], c);
      AnAttemptCanGoOn(r, c);
      EveryStepGoesOn(r, step);
      EveryStepKeepsTheInvariant(r, step);
      GoodStepsKeepOn(r, step, c);
      CompletionsAnswer(Next(r, step), c);
      Unfolds(r, step, Completion(Next(r, step), c));
    }
  }

  lemma AnsweredOnItsWay(k: Call)
    requires OnItsWay(k) && k.place.Answered?
    ensures k.place == Answered(Gone)
  {
  }

  lemma Unfolds(r: Retention, step: Step, steps: seq<Step>)
    requires Enabled(r, step) && Possible(Next(r, step), steps)
    ensures Possible(r, [step] + steps) && After(r, [step] + steps) == After(Next(r, step), steps)
  {
    hide Next, Enabled;
    assert ([step] + steps)[0] == step && ([step] + steps)[1..] == steps;
  }

  /** From every retention without an attempt under way, the next one can be completed: its count empty, the exit known
      and both releases made, it ends with the group gone and leader and slot released once. */
  lemma TheNextAttemptCanConfirmTheGroup(r: Retention, c: CallId)
    requires Inv(r) && r.present && r.attempt.None? && c !in r.calls
    ensures exists steps ::
              && Possible(r, [Begin(c)] + steps)
              && var t := After(r, [Begin(c)] + steps);
                 c in t.calls && t.calls[c].place == Answered(Gone) && !t.present && t.leaderReleases == 1 && t.slotReleases == 1
  {
    var begun := Next(r, Begin(c));
    EveryStepKeepsTheInvariant(r, Begin(c));
    var steps := Completion(begun, c);
    CompletionsAnswer(begun, c);
    hide Inv, Next, Enabled;
    Unfolds(r, Begin(c), steps);
    RunsKeepTheInvariant(begun, steps);
    GoneIsAfterTheReleases(After(begun, steps), c);
  }

  lemma GoneIsAfterTheReleases(t: Retention, c: CallId)
    requires Inv(t) && c in t.calls && t.calls[c].place == Answered(Gone)
    ensures !t.present && t.leaderReleases == 1 && t.slotReleases == 1
  {
    assert InOrder(t, t.calls[c]);
  }
}
