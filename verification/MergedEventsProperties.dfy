/** What the merger promises, over every interleaving of its moves with the barrier's steps. */
module MergedEventsProperties {
  import opened Wire
  import opened ToolBarrier
  import opened MergedEvents
  import opened ToolBarrierWire
  import RunStreams

  /** The relayed events among the yielded ones, in order. */
  function RelayedOf(yielded: seq<Item>): seq<RelayEvent> {
    if yielded == [] then []
    else
      var last := yielded[|yielded| - 1];
      RelayedOf(yielded[..|yielded| - 1]) + if last.Relayed? then [last.ev] else []
  }

  lemma RelayedOfAppend(yielded: seq<Item>, item: Item)
    ensures RelayedOf(yielded + [item]) == RelayedOf(yielded) + if item.Relayed? then [item.ev] else []
  {
    assert (yielded + [item])[..|yielded|] == yielded;
  }

  lemma GivenEventsAppend(log: seq<Entry>, e: Entry)
    ensures GivenEvents(log + [e]) == GivenEvents(log) + if e.Given? then [e.ev] else []
  {
    assert (log + [e])[..|log|] == log;
  }

  /** The merger yields the handed-out events in the order they were handed out; only an event in the
      hands of the finished relay step is not yielded yet. */
  ghost predicate InStep(m: Merger) {
    var given, relayed := GivenEvents(m.r.log), RelayedOf(m.yielded);
    if m.place.Over? then relayed <= given
    else given == relayed + match m.relay case RelayDone(ev) => [ev] case _ => []
  }

  lemma OutsideStepsGiveNothing(s: Run, step: Step, carries: string -> bool)
    requires Numbered(s.b) && Enabled(s, step) && Outside(step)
    ensures GivenEvents(Next(s, step, carries).log) == GivenEvents(s.log)
  {
    GivenEventsAppend(s.log, Stopped);
  }

  lemma AcceptsGiveNothing(s: Run, ev: RelayEvent)
    requires Numbered(s.b)
    ensures GivenEvents(Accepts(s, ev).log) == GivenEvents(s.log)
  {
    var log := s.log + [Accepted(ev)];
    GivenEventsAppend(s.log, Accepted(ev));
    GivenEventsAppend(log, Forwarded(ev.n));
    GivenEventsAppend(log, Replied(ev.n));
  }

  lemma ReaderStaysInStep(m: Merger)
    requires Merged(m) && InStep(m) && m.relay.RelayRunning?
    ensures InStep(RunReader(m))
  {
    var asked := NextEvent(m.r.b).1;
    if asked.HandsOut? {
      GivenEventsAppend(m.r.log, Given(asked.ev));
    }
  }

  lemma LookStaysInStep(m: Merger)
    requires Numbered(m.r.b) && InStep(m) && MayResume(m)
    ensures InStep(Look(m))
  {
    hide HasReadyEvent, FinalReady, RelayedOf, GivenEvents;
    if Look(m) == Finish(m) {
      FinishStaysInStep(m);
    }
  }

  /** What a look yields is the relay step's event, or one of the core that is none. */
  lemma FinishStaysInStep(m: Merger)
    requires InStep(m) && !m.place.Over?
    ensures InStep(Finish(m))
  {
    hide RelayedOf, GivenEvents;
    match m.relay
    case RelayDone(ev) => RelayedOfAppend(m.yielded, Relayed(ev));
    case RelayRaised(_) =>
    case _ =>
      if m.core.CoreDone? && m.core.outcome.Yielded? {
        RelayedOfAppend(m.yielded, Core(m.core.outcome.event));
      }
      assert RelayedOf(m.yielded) + [] == RelayedOf(m.yielded);
  }

  lemma MovesStayInStep(m: Merger, move: Move, carries: string -> bool)
    requires Merged(m) && InStep(m) && CanMove(m, move)
    ensures InStep(Moved(m, move, carries))
  {
    hide Inv;
    match move {
      case BarrierMoves(step) =>
        NumberedWhenMerged(m);
        OutsideStepsGiveNothing(m.r, step, carries);
      case CoreStepEnds(_) =>
      case ReaderRuns => ReaderStaysInStep(m);
      case NextAsked =>
        NumberedWhenMerged(m);
        if m.unaccepted.Some? {
          AcceptsGiveNothing(m.r, m.unaccepted.value);
        }
      case Resumes =>
        NumberedWhenMerged(m);
        LookStaysInStep(m);
      case Closes =>
    }
  }

  lemma NumberedWhenMerged(m: Merger)
    requires Merged(m)
    ensures Numbered(m.r.b)
  {
  }

  /** The merger after any sequence of moves; a move that cannot happen then is left out. */
  ghost function AfterMoves(moves: seq<Move>, carries: string -> bool): (m: Merger)
    ensures Merged(m) && InStep(m)
  {
    if moves == [] then UNMERGED
    else
      var m, move := AfterMoves(moves[..|moves| - 1], carries), moves[|moves| - 1];
      if CanMove(m, move) then
        EveryMoveKeeps(m, move, carries);
        MovesStayInStep(m, move, carries);
        Moved(m, move, carries)
      else m
  }

  lemma FinalIsYielded(m: Merger, answer: string)
    requires Numbered(m.r.b) && MayResume(m) && Look(m).yielded == m.yielded + [Core(CoreFinal(answer))]
    ensures !m.relay.RelayDone? && !m.relay.RelayRaised? && FinalReady(m)
    ensures m.relay.RelayRunning? ==> !HasReadyEvent(m.r.b) && !HasRunningForward(m.r.b)
  {
    assert Look(m).yielded[|m.yielded|] == Core(CoreFinal(answer));
  }

  /** The final answer is yielded only once the barrier is done: nothing is queued, handed out or
      running, and every tool call yielded before has its result yielded and accepted, unless its
      forward was cancelled. */
  lemma FinalComesLast(moves: seq<Move>, carries: string -> bool, answer: string)
    requires var m := AfterMoves(moves, carries);
             Numbered(m.r.b) && MayResume(m) && !m.r.b.stopped
             && Look(m).yielded == m.yielded + [Core(CoreFinal(answer))]
    ensures var m := AfterMoves(moves, carries);
            && !HasReadyEvent(m.r.b) && !HasRunningForward(m.r.b)
            && m.r.b.handedOut.None? && m.unaccepted.None?
            && forall n: nat :: Relayed(CallEvent(n)) in m.yielded && n !in m.r.cancelledForwards ==>
                 Relayed(ResultEvent(n)) in m.yielded && Accepted(ResultEvent(n)) in m.r.log
  {
    var m := AfterMoves(moves, carries);
    FinalIsYielded(m, answer);
    NothingLeftMeansAllAnswered(m);
  }

  lemma NothingLeftMeansAllAnswered(m: Merger)
    requires Merged(m) && !m.r.b.stopped && !m.place.AtRest? && !m.place.Over?
    requires m.relay.RelayRunning? && !HasReadyEvent(m.r.b) && !HasRunningForward(m.r.b)
    ensures m.r.b.handedOut.None? && m.unaccepted.None?
    ensures forall n: nat :: Relayed(CallEvent(n)) in m.yielded && n !in m.r.cancelledForwards ==>
              Relayed(ResultEvent(n)) in m.yielded && Accepted(ResultEvent(n)) in m.r.log
  {
  }

  /** The merger yields the barrier's events exactly in the order they were handed out. */
  lemma YieldedInHandOutOrder(moves: seq<Move>, carries: string -> bool)
    ensures var m := AfterMoves(moves, carries);
            RelayedOf(m.yielded) <= GivenEvents(m.r.log) && Core(CoreTool) !in m.yielded
  {
  }

  /** Written to the wire among any other events, what the merger yields breaks no tool rule. */
  lemma MergedEventsKeepTheToolRules(moves: seq<Move>, carries: string -> bool,
                                     t: RunStreams.Trace, e: RunEvent, k: nat)
    requires var relayed := RelayedOf(AfterMoves(moves, carries).yielded);
             k < |relayed| && Refs(t) == Images(relayed[..k]) && RefOf(e) == Some(Image(relayed[k]))
    requires RunStreams.InRunLanguage(t) && RunStreams.HeaderFits(t, e)
    ensures RunStreams.BrokenRule(RunStreams.PromisesOf(t), e).None?
  {
    var m := AfterMoves(moves, carries);
    var relayed, given := RelayedOf(m.yielded), GivenEvents(m.r.log);
    YieldedInHandOutOrder(moves, carries);
    assert LogSafe(m.r.log);
    hide Inv, Merged, InStep, RunStreams.PromisesOf, RunStreams.BrokenRule, RunStreams.InRunLanguage, LogSafe;
    GivenEventsAreInOrder(m.r.log);
    assert relayed[..k] == given[..k];
    InOrderKeepsTheToolRules(given, t, e, k);
    RunStreams.AcceptsExactlyWhatMayFollow(t, e);
  }
}
