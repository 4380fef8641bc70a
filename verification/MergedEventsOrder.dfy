/** What the merger yields of the core's stream, and what each of its waits comes to: no event of the core is lost or
    reordered but its own tool events, and the barrier's events come first. */
module MergedEventsOrder {
  import opened Wire
  import opened ToolBarrier
  import opened ToolBarrierResults
  import opened MergedEvents
  import opened MergedEventsProperties

  // ---------------------------------------------------------------- one move

  /** The accept of the event yielded last comes before anything else of a next event; one the barrier refuses ends the
      merger. Otherwise the steps that do not run are started. */
  lemma ANextEventAcceptsTheLast(m: Merger, carries: string -> bool, t: Merger)
    requires Numbered(m.r.b) && m.place.AtRest? && t == Moved(m, NextAsked, carries)
    ensures t == m.(r := t.r, core := t.core, relay := t.relay, unaccepted := None, place := t.place)
    ensures match m.unaccepted
            case None => t.r == m.r && t.place == AwaitsStep
            case Some(ev) =>
              && t.r == Next(m.r, EventAccepted(ev), carries)
              && t.place == if m.r.b.handedOut == Some(ev) then AwaitsStep else Over
    ensures if t.place == Over then t.core == m.core && t.relay == m.relay
            else t.core == (if m.core == NoCoreStep then CoreRunning else m.core)
                 && t.relay == (if m.relay == NoRelayStep then RelayRunning else m.relay)
  {
    hide Accepts;
  }

  /** The barrier still has something to hand out or to raise. */
  ghost predicate BarrierReady(b: Barrier)
    requires Numbered(b)
  {
    b.unoffered || b.reflected || exists ev :: ev in b.ready && Wanted(b, ev)
  }

  /** What a wait that is over comes to. A ready event of the core waits while the reader runs and the barrier has one
      ready, and a final answer while a forward runs; then a finished relay step comes first, and then the core's: its
      tool events are dropped, its end or its error ends the merger, and every other event is yielded. */
  lemma WhatAWaitComesTo(m: Merger, carries: string -> bool, t: Merger)
    requires Numbered(m.r.b) && MayResume(m) && t == Moved(m, Resumes, carries)
    ensures if m.relay.RelayDone? then
              t == m.(relay := NoRelayStep, unaccepted := Some(m.relay.ev), yielded := m.yielded + [Relayed(m.relay.ev)], place := AtRest)
            else if m.relay.RelayRaised? then t == m.(relay := NoRelayStep, place := Over)
            else if m.core.CoreDone? && m.relay == RelayRunning && BarrierReady(m.r.b) then t == m.(place := LooksAgain)
            else if m.core.CoreDone? && m.relay == RelayRunning && m.r.b.forwards != map[]
                    && m.core.outcome.Yielded? && m.core.outcome.event.CoreFinal?
            then t == m.(place := AwaitsReader)
            else if !m.core.CoreDone? then t == m.(core := CoreRunning, relay := RelayRunning, place := AwaitsStep)
            else if !m.core.outcome.Yielded? then t == m.(core := NoCoreStep, place := Over)
            else if m.core.outcome.event == CoreTool
            then t == m.(core := CoreRunning, relay := RelayRunning, place := AwaitsStep)
            else t == m.(core := NoCoreStep, yielded := m.yielded + [Core(m.core.outcome.event)], place := AtRest)
  {
    assert HasReadyEvent(m.r.b) <==> BarrierReady(m.r.b) by {
      assert forall ev: RelayEvent :: ev.n < |m.r.b.calls| ==> (Waits(m.r.b, ev) <==> Wanted(m.r.b, ev));
    }
    hide HasReadyEvent, BarrierReady;
  }

  /** The reader runs one pass of the barrier's next event, and its step is done when that handed out or raised. */
  lemma WhatTheReaderFinds(m: Merger, carries: string -> bool, t: Merger, i: nat)
    requires Numbered(m.r.b) && CanMove(m, ReaderRuns) && t == Moved(m, ReaderRuns, carries)
    requires i <= |m.r.b.ready| && forall j :: 0 <= j < i ==> !Wanted(m.r.b, m.r.b.ready[j])
    requires i < |m.r.b.ready| ==> Wanted(m.r.b, m.r.b.ready[i])
    ensures t == m.(r := t.r, relay := t.relay)
    ensures t.relay.RelayDone? || t.relay.RelayRaised? || t.relay == RelayRunning
    ensures t.relay.RelayDone? <==>
              m.r.b.handedOut.None? && !m.r.b.unoffered && !m.r.b.reflected && !m.r.b.stopped && i < |m.r.b.ready|
    ensures t.relay.RelayDone? ==> t.relay.ev == m.r.b.ready[i]
    ensures t.relay.RelayRaised? <==> m.r.b.handedOut.Some? || m.r.b.unoffered || m.r.b.reflected || m.r.b.stopped
  {
    WhatAReaderIsTold(m.r.b, i);
    hide NextEvent;
  }

  // ---------------------------------------------------------------- every run

  /** How the core's steps ended, in order. */
  ghost function CoreOutcomes(moves: seq<Move>, carries: string -> bool): seq<CoreOutcome> {
    if moves == [] then []
    else
      var before, move := moves[..|moves| - 1], moves[|moves| - 1];
      CoreOutcomes(before, carries)
      + if move.CoreStepEnds? && CanMove(AfterMoves(before, carries), move) then [move.outcome] else []
  }

  /** The texts and answers among them. */
  ghost function Told(outcomes: seq<CoreOutcome>): seq<CoreEvent> {
    if outcomes == [] then []
    else Told(outcomes[..|outcomes| - 1]) + ToldBy(outcomes[|outcomes| - 1])
  }

  ghost function ToldBy(outcome: CoreOutcome): seq<CoreEvent> {
    if outcome.Yielded? && outcome.event != CoreTool then [outcome.event] else []
  }

  /** The core's events among the yielded ones, in order. */
  ghost function CoreOf(yielded: seq<Item>): seq<CoreEvent> {
    if yielded == [] then []
    else
      var last := yielded[|yielded| - 1];
      CoreOf(yielded[..|yielded| - 1]) + if last.Core? then [last.event] else []
  }

  lemma CoreOfAppend(yielded: seq<Item>, item: Item)
    ensures CoreOf(yielded + [item]) == CoreOf(yielded) + if item.Core? then [item.event] else []
  {
    assert (yielded + [item])[..|yielded|] == yielded;
  }

  lemma ToldAppend(outcomes: seq<CoreOutcome>, outcome: CoreOutcome)
    ensures Told(outcomes + [outcome]) == Told(outcomes) + ToldBy(outcome)
  {
    assert (outcomes + [outcome])[..|outcomes|] == outcomes;
  }

  /** The merger yields what the core tells in its order; only an event in the hands of the finished core step is not
      yielded yet. */
  ghost predicate InCoreStep(m: Merger, outcomes: seq<CoreOutcome>) {
    var told, yielded := Told(outcomes), CoreOf(m.yielded);
    if m.place.Over? then yielded <= told
    else told == yielded + if m.core.CoreDone? then ToldBy(m.core.outcome) else []
  }

  lemma ResumingStaysInCoreStep(m: Merger, carries: string -> bool, outcomes: seq<CoreOutcome>)
    requires Numbered(m.r.b) && MayResume(m) && InCoreStep(m, outcomes)
    ensures InCoreStep(Moved(m, Resumes, carries), outcomes)
  {
    hide Moved, CoreOf, Told, BarrierReady;
    WhatAWaitComesTo(m, carries, Moved(m, Resumes, carries));
    assert CoreOf(m.yielded) + [] == CoreOf(m.yielded);
    match m.relay
    case RelayDone(ev) => CoreOfAppend(m.yielded, Relayed(ev));
    case RelayRaised(_) =>
    case _ =>
      if m.core.CoreDone? && m.core.outcome.Yielded? {
        CoreOfAppend(m.yielded, Core(m.core.outcome.event));
      }
  }

  lemma MovesStayInCoreStep(m: Merger, move: Move, carries: string -> bool, outcomes: seq<CoreOutcome>)
    requires Merged(m) && CanMove(m, move) && InCoreStep(m, outcomes)
    ensures InCoreStep(Moved(m, move, carries), outcomes + if move.CoreStepEnds? then [move.outcome] else [])
  {
    NumberedWhenMerged(m);
    hide Merged, Inv, CoreOf, Told, Next, Accepts, Asks, NextEvent, Look;
    assert outcomes + [] == outcomes && CoreOf(m.yielded) + [] == CoreOf(m.yielded);
    match move {
      case CoreStepEnds(outcome) =>
        ToldAppend(outcomes, outcome);
        assert m.core.CoreRunning?;
      case Resumes => ResumingStaysInCoreStep(m, carries, outcomes);
      case NextAsked => ANextEventAcceptsTheLast(m, carries, Moved(m, NextAsked, carries));
      case _ =>
    }
  }

  lemma {:induction false} RunsStayInCoreStep(moves: seq<Move>, carries: string -> bool)
    ensures InCoreStep(AfterMoves(moves, carries), CoreOutcomes(moves, carries))
  {
    hide Merged, InStep, Moved, InCoreStep;
    if moves == [] {
      NothingIsTold();
    } else {
      var before, move := moves[..|moves| - 1], moves[|moves| - 1];
      RunsStayInCoreStep(before, carries);
      var m := AfterMoves(before, carries);
      if CanMove(m, move) {
        MovesStayInCoreStep(m, move, carries, CoreOutcomes(before, carries));
      } else {
        assert CoreOutcomes(before, carries) + [] == CoreOutcomes(before, carries);
      }
    }
  }

  lemma NothingIsTold()
    ensures InCoreStep(UNMERGED, [])
  {
  }

  /** Whatever the interleaving with the barrier: the texts and answers of the core are yielded exactly as the core told
      them, none lost, doubled or reordered; only what its finished step holds is not yielded yet. */
  lemma TheCoreIsYieldedInOrder(moves: seq<Move>, carries: string -> bool)
    ensures var m := AfterMoves(moves, carries);
            var told := Told(CoreOutcomes(moves, carries));
            && CoreOf(m.yielded) <= told
            && (m.place.AtRest? && !m.core.CoreDone? ==> CoreOf(m.yielded) == told)
            && (!m.place.Over? ==> |told| <= |CoreOf(m.yielded)| + 1)
  {
    RunsStayInCoreStep(moves, carries);
    hide AfterMoves, CoreOutcomes, Told, CoreOf;
  }
}
