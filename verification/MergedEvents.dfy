/** The core's events merged with the barrier's (packages/service/src/agent_runtime_service/relayed_events.py):
    the regions between two awaits as steps, interleaved with every step of the barrier. */
module MergedEvents {
  import opened Wire
  import opened ToolBarrier

  /** What the core's stream yields: its own tool events are dropped by the merger. */
  datatype CoreEvent = CoreText(text: string) | CoreTool | CoreFinal(answer: string)

  datatype CoreOutcome = Yielded(event: CoreEvent) | StreamEnded | CoreRaised

  /** A step task of the merger: not started, running, or done. */
  datatype CoreStep = NoCoreStep | CoreRunning | CoreDone(outcome: CoreOutcome)
  datatype RelayStep = NoRelayStep | RelayRunning | RelayDone(ev: RelayEvent) | RelayRaised(failure: Asked)

  datatype Item = Relayed(ev: RelayEvent) | Core(event: CoreEvent)

  /** Where `__anext__` is: not called, in its wait for a step, in one of the two waits of its look at
      the barrier, or over. */
  datatype Place = AtRest | AwaitsStep | LooksAgain | AwaitsReader | Over

  datatype Merger = Merger(
    r: Run, core: CoreStep, relay: RelayStep, unaccepted: Option<RelayEvent>, place: Place, yielded: seq<Item>)

  const UNMERGED := Merger(START, NoCoreStep, NoRelayStep, None, AtRest, [])

  datatype Move =
    | BarrierMoves(step: Step)          // the CLI, an app's answer or the close act on the barrier
    | CoreStepEnds(outcome: CoreOutcome)
    | ReaderRuns                        // the relay step runs one pass of `next_event()`
    | NextAsked                         // the service asks for the next event
    | Resumes                           // `__anext__` resumes from the wait it is in
    | Closes

  /** The steps of the barrier that the merger does not take itself. */
  predicate Outside(step: Step) {
    !step.EventAccepted? && !step.ReaderAsks? && !step.ReaderWakes? && !step.ReaderLeaves?
  }

  predicate CanMove(m: Merger, move: Move) {
    match move
    case BarrierMoves(step) => Outside(step) && Enabled(m.r, step)
    case CoreStepEnds(_) => m.core.CoreRunning?
    case ReaderRuns => m.relay.RelayRunning? && (m.r.parked ==> m.r.b.changed)
    case NextAsked => m.place.AtRest?
    case Resumes => MayResume(m)
    case Closes => true
  }

  predicate MayResume(m: Merger) {
    match m.place
    case AwaitsStep => m.core.CoreDone? || m.relay.RelayDone? || m.relay.RelayRaised?
    case LooksAgain => true
    case AwaitsReader => !m.relay.RelayRunning?
    case _ => false
  }

  function RunReader(m: Merger): Merger
    requires Numbered(m.r.b)
  {
    var asked := NextEvent(m.r.b).1;
    m.(r := Asks(m.r),
       relay := match asked
                case MustWait => RelayRunning
                case HandsOut(ev) => RelayDone(ev)
                case _ => RelayRaised(asked))
  }

  /** The accept of the event yielded last; an accept the barrier refuses is raised. */
  function AcceptYielded(m: Merger): Merger
    requires Numbered(m.r.b)
  {
    match m.unaccepted
    case None => m
    case Some(ev) =>
      var refused := m.r.b.handedOut != Some(ev);
      m.(r := Accepts(m.r, ev), unaccepted := None, place := if refused then Over else m.place)
  }

  function StartSteps(m: Merger): Merger {
    m.(core := if m.core.NoCoreStep? then CoreRunning else m.core,
       relay := if m.relay.NoRelayStep? then RelayRunning else m.relay,
       place := AwaitsStep)
  }

  predicate FinalReady(m: Merger) {
    m.core.CoreDone? && m.core.outcome.Yielded? && m.core.outcome.event.CoreFinal?
  }

  /** The look at the barrier once a core event is ready, then whatever step is finished. */
  function Look(m: Merger): Merger
    requires Numbered(m.r.b)
  {
    if m.core.CoreDone? && m.relay.RelayRunning? && HasReadyEvent(m.r.b) then m.(place := LooksAgain)
    else if m.relay.RelayRunning? && FinalReady(m) && HasRunningForward(m.r.b) then m.(place := AwaitsReader)
    else Finish(m)
  }

  function Finish(m: Merger): Merger {
    match m.relay
    case RelayDone(ev) =>
      m.(relay := NoRelayStep, unaccepted := Some(ev), yielded := m.yielded + [Relayed(ev)], place := AtRest)
    case RelayRaised(_) => m.(relay := NoRelayStep, place := Over)
    case _ =>
      if !m.core.CoreDone? then StartSteps(m)
      else
        var outcome := m.core.outcome;
        var m := m.(core := NoCoreStep);
        if !outcome.Yielded? then m.(place := Over)
        else if outcome.event.CoreTool? then StartSteps(m)
        else m.(yielded := m.yielded + [Core(outcome.event)], place := AtRest)
  }

  function Moved(m: Merger, move: Move, carries: string -> bool): Merger
    requires Numbered(m.r.b) && CanMove(m, move)
  {
    match move
    case BarrierMoves(step) => m.(r := Next(m.r, step, carries))
    case CoreStepEnds(outcome) => m.(core := CoreDone(outcome))
    case ReaderRuns => RunReader(m)
    case NextAsked =>
      var accepted := AcceptYielded(m);
      if accepted.place.Over? then accepted else StartSteps(accepted)
    case Resumes => Look(m)
    case Closes =>
      m.(r := m.r.(parked := false), core := NoCoreStep, relay := NoRelayStep, place := Over)
  }

  // ---------------------------------------------------------------- the invariant

  ghost predicate Merged(m: Merger) {
    && Inv(m.r)
    && (m.r.parked ==> m.relay.RelayRunning?)
    && (m.unaccepted.Some? && !m.place.Over? ==> m.place.AtRest? && m.relay.NoRelayStep?)
    && (m.place.AwaitsReader? ==> FinalReady(m))
    && (m.place.LooksAgain? ==> m.core.CoreDone?)
    && (m.place.AwaitsStep? || m.place.LooksAgain? || m.place.AwaitsReader? ==> !m.relay.NoRelayStep?)
    && (!m.r.b.stopped && !m.place.Over? ==>
          m.r.b.handedOut == match m.relay case RelayDone(ev) => Some(ev) case _ => m.unaccepted)
    && (!m.place.Over? ==>
          forall ev :: Given(ev) in m.r.log ==> Relayed(ev) in m.yielded || m.relay == RelayDone(ev))
    && (forall ev :: Relayed(ev) in m.yielded ==> Given(ev) in m.r.log)
    && (m.relay.RelayDone? ==> Given(m.relay.ev) in m.r.log)
    && Core(CoreTool) !in m.yielded
  }

  lemma OutsideStepsKeepTheHandOut(s: Run, step: Step, carries: string -> bool)
    requires Numbered(s.b) && Enabled(s, step) && Outside(step)
    ensures var t := Next(s, step, carries);
            && (t.b.handedOut == s.b.handedOut || t.b.stopped)
            && (s.b.stopped ==> t.b.stopped)
            && t.parked == s.parked
            && forall ev :: Given(ev) in t.log <==> Given(ev) in s.log
  {
    hide HasReadyEvent, RefuseAll, Remove, PendingWith;
    if step.BarrierStops? {
      assert Next(s, step, carries).log == s.log + [Stopped];
    } else {
      assert Next(s, step, carries).log == s.log;
    }
  }

  lemma BarrierMovesKeep(m: Merger, step: Step, carries: string -> bool, t: Run)
    requires Merged(m) && t.parked == m.r.parked && Inv(t)
    requires (t.b.handedOut == m.r.b.handedOut || t.b.stopped) && (m.r.b.stopped ==> t.b.stopped)
    requires forall ev :: Given(ev) in t.log <==> Given(ev) in m.r.log
    ensures Merged(m.(r := t))
  {
    hide Inv;
  }

  lemma ReaderKeeps(m: Merger)
    requires Merged(m) && m.relay.RelayRunning? && (m.r.parked ==> m.r.b.changed)
    ensures Merged(RunReader(m))
  {
    AskKeeps(m.r);
    AsksGives(m.r);
    var t := Asks(m.r);
    hide Inv, Asks;
  }

  lemma AsksGives(s: Run)
    requires Numbered(s.b)
    ensures var (t, asked) := (Asks(s), NextEvent(s.b).1);
            && (t.parked <==> asked.MustWait?)
            && t.b.stopped == s.b.stopped
            && t.b.handedOut == (if asked.HandsOut? then Some(asked.ev) else s.b.handedOut)
            && forall ev :: Given(ev) in t.log <==> Given(ev) in s.log || asked == HandsOut(ev)
  {
  }

  lemma AcceptGives(s: Run, ev: RelayEvent)
    requires Numbered(s.b)
    ensures var t := Accepts(s, ev);
            && t.parked == s.parked && t.b.stopped == s.b.stopped
            && (s.b.handedOut == Some(ev) ==> t.b.handedOut.None?)
            && (s.b.handedOut != Some(ev) ==> t == s)
            && forall given :: Given(given) in t.log <==> Given(given) in s.log
  {
  }

  lemma NextAskedKeeps(m: Merger, carries: string -> bool)
    requires Merged(m) && m.place.AtRest?
    ensures Merged(Moved(m, NextAsked, carries))
  {
    if m.unaccepted.Some? {
      AcceptKeeps(m.r, m.unaccepted.value);
      AcceptGives(m.r, m.unaccepted.value);
      AcceptedYielded(m, Accepts(m.r, m.unaccepted.value));
    }
  }

  lemma AcceptedYielded(m: Merger, t: Run)
    requires Merged(m) && m.place.AtRest? && m.unaccepted.Some? && Inv(t)
    requires t.parked == m.r.parked && t.b.stopped == m.r.b.stopped
    requires if m.r.b.handedOut == m.unaccepted then t.b.handedOut.None? else t == m.r
    requires forall given :: Given(given) in t.log <==> Given(given) in m.r.log
    ensures Merged(m.(r := t, unaccepted := None,
                      place := if m.r.b.handedOut == m.unaccepted then m.place else Over))
    ensures Merged(StartSteps(m.(r := t, unaccepted := None))) || m.r.b.handedOut != m.unaccepted
  {
    hide Inv;
  }

  lemma ResumesKeeps(m: Merger)
    requires Merged(m) && MayResume(m)
    ensures Merged(Look(m))
  {
    var t := Look(m);
    hide Inv, HasReadyEvent;
    assert t.r == m.r;
    assert forall item :: item in t.yielded <==> item in m.yielded || item in t.yielded[|m.yielded|..];
  }

  lemma UnparkingKeeps(s: Run)
    requires Inv(s)
    ensures Inv(s.(parked := false))
  {
  }

  lemma ClosesKeeps(m: Merger)
    requires Merged(m)
    ensures Merged(m.(r := m.r.(parked := false), core := NoCoreStep, relay := NoRelayStep, place := Over))
  {
    UnparkingKeeps(m.r);
    hide Inv, HasReadyEvent;
  }

  /** Every move of the merger, of its two step tasks and of the barrier keeps the invariant. */
  lemma EveryMoveKeeps(m: Merger, move: Move, carries: string -> bool)
    requires Merged(m) && CanMove(m, move)
    ensures Merged(Moved(m, move, carries))
  {
    match move {
      case BarrierMoves(step) =>
        EveryStepKeepsTheInvariant(m.r, step, carries);
        OutsideStepsKeepTheHandOut(m.r, step, carries);
        BarrierMovesKeep(m, step, carries, Next(m.r, step, carries));
      case CoreStepEnds(_) =>
      case ReaderRuns => ReaderKeeps(m);
      case NextAsked => NextAskedKeeps(m, carries);
      case Resumes => ResumesKeeps(m);
      case Closes => ClosesKeeps(m);
    }
  }
}
