/** The merger as its source writes it: the two step tasks and the unaccepted event are fields, and
    each region of `__anext__` between two awaits is one method tied to its move in MergedEvents. */
module RelayedEventsClass {
  import opened Wire
  import opened ToolBarrier
  import opened ToolCallBarriers
  import opened MergedEvents

  class RelayedEvents {
    const calls: ToolCallBarrier
    var coreStep: CoreStep
    var relayStep: RelayStep
    var unaccepted: Option<RelayEvent>
    ghost var place: Place
    ghost var yielded: seq<Item>

    ghost function View(): Merger
      reads this, calls
    {
      Merger(calls.run, coreStep, relayStep, unaccepted, place, yielded)
    }

    ghost predicate Valid()
      reads this, calls, calls.calls
    {
      calls.Valid() && Merged(View())
    }

    constructor (calls: ToolCallBarrier)
      requires calls.Valid() && calls.run == START
      ensures Valid() && View() == UNMERGED && this.calls == calls
    {
      this.calls := calls;
      coreStep, relayStep, unaccepted := NoCoreStep, NoRelayStep, None;
      place, yielded := AtRest, [];
    }

    /** The barrier's own accept rule decides: a refused accept leaves `__anext__` by its raise. */
    method AcceptTheYieldedEvent() returns (raised: bool)
      requires calls.Valid()
      modifies this`unaccepted, this`place, calls, calls.calls
      ensures calls.Valid() && Numbered(old(calls.run.b))
      ensures View() == AcceptYielded(old(View()))
      ensures raised ==> place.Over?
      ensures !raised ==> place == old(place)
    {
      hide Inv, Accepts, ToolBarrier.Accept, Numbered;
      NumberedWhenValid();
      if unaccepted.None? {
        return false;
      }
      var ev := unaccepted.value;
      unaccepted := None;
      var accepted := calls.Accept(ev);
      if !accepted {
        place := Over;
      }
      raised := !accepted;
    }

    lemma NumberedWhenValid()
      requires calls.Valid()
      ensures Numbered(calls.run.b)
    {
    }

    /** Starts the step tasks that are not running or done, and waits for one. */
    method WaitForAStep()
      modifies this`coreStep, this`relayStep, this`place
      ensures View() == StartSteps(old(View()))
    {
      if coreStep.NoCoreStep? {
        coreStep := CoreRunning;
      }
      if relayStep.NoRelayStep? {
        relayStep := RelayRunning;
      }
      place := AwaitsStep;
    }

    /** `__anext__` is called: the event yielded last is accepted, and the wait begins. */
    method Next() returns (raised: bool)
      requires Valid() && place.AtRest?
      modifies this, calls, calls.calls
      ensures Valid() && Numbered(old(View()).r.b)
      ensures View() == Moved(old(View()), NextAsked, calls.carries)
    {
      hide Inv;
      ghost var before := View();
      NextAskedKeeps(before, calls.carries);
      NumberedWhenValid();
      raised := AcceptTheYieldedEvent();
      if !raised {
        WaitForAStep();
      }
    }

    method FinishedRelayEvent() returns (finished: bool, event: Option<RelayEvent>)
      modifies this`relayStep, this`unaccepted, this`place, this`yielded
      ensures finished <==> old(relayStep).RelayDone? || old(relayStep).RelayRaised?
      ensures !finished ==> View() == old(View()) && event.None?
      ensures event.Some? ==> yielded == old(yielded) + [Relayed(event.value)]
      ensures event.None? ==> yielded == old(yielded)
      ensures finished ==> View() == Finish(old(View()))
      ensures event == if old(relayStep).RelayDone? then Some(old(relayStep).ev) else None
    {
      event := None;
      finished := relayStep.RelayDone? || relayStep.RelayRaised?;
      if relayStep.RelayDone? {
        event := Some(relayStep.ev);
        unaccepted := event;
        yielded := yielded + [Relayed(relayStep.ev)];
        relayStep := NoRelayStep;
        place := AtRest;
      } else if relayStep.RelayRaised? {
        relayStep := NoRelayStep;
        place := Over;
      }
    }

    method FinishedCoreEvent() returns (event: Option<CoreEvent>)
      requires !relayStep.RelayDone? && !relayStep.RelayRaised?
      modifies this
      ensures View() == Finish(old(View()))
      ensures event.Some? <==> yielded != old(yielded)
      ensures event.Some? ==> yielded == old(yielded) + [Core(event.value)]
    {
      event := None;
      if !coreStep.CoreDone? {
        WaitForAStep();
        return;
      }
      var outcome := coreStep.outcome;
      coreStep := NoCoreStep;
      if !outcome.Yielded? {
        place := Over;
      } else if outcome.event.CoreTool? {
        WaitForAStep();
      } else {
        event := Some(outcome.event);
        yielded := yielded + [Core(outcome.event)];
        place := AtRest;
      }
    }

    /** `__anext__` resumes: it waits again while the barrier has work for the core's event, else it
        yields what is finished, the barrier's event first. */
    method Resume() returns (relayed: Option<RelayEvent>, core: Option<CoreEvent>)
      requires Valid() && MayResume(View())
      modifies this
      ensures Valid() && Numbered(old(View()).r.b)
      ensures View() == Look(old(View()))
      ensures relayed.Some? ==> yielded == old(yielded) + [Relayed(relayed.value)]
      ensures relayed.None? && core.Some? ==> yielded == old(yielded) + [Core(core.value)]
      ensures relayed.None? && core.None? ==> yielded == old(yielded)
    {
      hide Inv, Merged, LinkedTo, AllContentsKept, ToolBarrier.HasReadyEvent;
      ghost var before := View();
      ResumesKeeps(before);
      NumberedWhenValid();
      relayed, core := None, None;
      if coreStep.CoreDone? && relayStep.RelayRunning? {
        var ready := calls.HasReadyEvent();
        if ready {
          place := LooksAgain;
          return;
        }
        var running := calls.HasRunningForward();
        var final := coreStep.outcome.Yielded? && coreStep.outcome.event.CoreFinal?;
        if final && running {
          place := AwaitsReader;
          return;
        }
      }
      var finished;
      finished, relayed := FinishedRelayEvent();
      if !finished {
        core := FinishedCoreEvent();
      }
    }

    /** The relay step's task runs one pass of the barrier's `next_event()`. */
    method RunRelayStep()
      requires Valid() && relayStep.RelayRunning? && (calls.run.parked ==> calls.changed)
      modifies this`relayStep, calls
      ensures Valid() && Numbered(old(View()).r.b)
      ensures View() == RunReader(old(View()))
    {
      hide Inv, ToolBarrier.NextEvent;
      ghost var before := View();
      ReaderKeeps(before);
      NumberedWhenValid();
      var asked := calls.NextEvent();
      match asked {
        case MustWait =>
        case HandsOut(ev) => relayStep := RelayDone(ev);
        case _ => relayStep := RelayRaised(asked);
      }
    }
  }
}
