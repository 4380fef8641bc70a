/** The supervisor's classes (packages/service/src/agent_runtime_service/run_liveness.py:208-237 and 526-827),
    one method per await-free region, each proved to be the step of the machine it stands for. */
module SupervisedRuns {
  import opened Wire
  import opened RunStreams
  import opened WireRuns
  import opened Supervision

  /** The one frame waiting for the client; closing it ends the client's stream. */
  class FrameSlot {
    var frame: Option<RunEvent>
    var closed: bool
    var forClient: bool
    var vacated: bool

    ghost predicate Valid()
      reads this
    {
      forClient == (frame.Some? || closed) && vacated == frame.None?
    }

    ghost function View(): Slot
      reads this
    {
      Slot(frame, closed)
    }

    constructor ()
      ensures Valid() && View() == Slot(None, false)
    {
      frame, closed, forClient, vacated := None, false, false, true;
    }

    method Fill(f: RunEvent)
      requires Valid()
      modifies this
      ensures Valid() && View() == old(View()).(frame := Some(f))
    {
      frame, vacated, forClient := Some(f), false, true;
    }

    method Close()
      requires Valid()
      modifies this
      ensures Valid() && View() == old(View()).(closed := true)
    {
      closed, forClient := true, true;
    }

    /** What the client's wait returns once `forClient` is set; None ends its stream. */
    method Take() returns (f: Option<RunEvent>)
      requires Valid() && forClient
      modifies this
      ensures Valid() && View() == old(View()).(frame := None) && f == old(frame)
    {
      f, frame := frame, None;
      if !closed {
        forClient := false;
      }
      vacated := true;
    }
  }

  class SupervisedRun {
    const wire: WireRun
    const timeouts: Timeouts
    const slot: FrameSlot
    var stepWanted: bool
    var outcomeReady: bool
    var outcome: Option<RunnerOutcome>
    var stopping: bool
    var heartbeatDue: real
    var maximumDue: real
    var idleDue: Instant
    var stallDue: real
    var losses: seq<Group>
    // Where the three tasks wait: the supervisor, the pump and the cleanup.
    var place: Place
    var pump: Pump
    var cleanup: Reap
    var clientDone: bool
    ghost var sent: Trace
    ghost var taken: Trace
    ghost var cut: bool
    ghost var handedOver: Option<seq<Group>>
    ghost var over: Option<RunEvent>
    ghost var times: Since

    ghost function Footprint(): set<object>
      reads this
    {
      {this, slot, wire, wire.stream}
    }

    ghost predicate Valid()
      reads Footprint()
    {
      && slot.Valid()
      && outcomeReady == outcome.Some?
      && stopping == Stopped(View())
      && View().wire.stream.runId.Some?
    }

    ghost function Settings(): Config {
      Config(timeouts, wire.encode)
    }

    ghost function View(): Run
      reads Footprint()
    {
      Run(wire.View(), sent, taken, slot.View(), clientDone, place, cut, pump, stepWanted, outcome, losses,
          cleanup, handedOver, over, heartbeatDue, maximumDue, idleDue, stallDue, times)
    }

    constructor (wire: WireRun, timeouts: Timeouts, started: RunEvent, startedAt: real)
      requires wire.View().stream.runId.Some?
      ensures Valid() && fresh(slot) && this.wire == wire && this.timeouts == timeouts
      ensures View() == Run(wire.View(), [started], [started], Slot(None, false), false, Unstarted, false,
                            AwaitsStep, false, None, [], NotAsked, None, None,
                            startedAt + timeouts.heartbeat, startedAt + timeouts.maximum, Never, 0.0,
                            Since(startedAt, startedAt, startedAt, 0.0))
    {
      this.wire, this.timeouts := wire, timeouts;
      slot := new FrameSlot();
      stepWanted, outcomeReady, outcome, stopping := false, false, None, false;
      heartbeatDue, maximumDue := startedAt + timeouts.heartbeat, startedAt + timeouts.maximum;
      idleDue, stallDue, losses := Never, 0.0, [];
      place, pump, cleanup, clientDone := Unstarted, AwaitsStep, NotAsked, false;
      sent, taken, cut, handedOver, over := [started], [started], false, None, None;
      times := Since(startedAt, startedAt, startedAt, 0.0);
    }

    // -------------------------------------------------------------- the supervisor

    method Begin(startedAt: real)
      requires Valid() && place.Unstarted?
      modifies this
      ensures Valid() && View() == Next(Settings(), old(View()), Start(startedAt))
    {
      AskForStep(startedAt);
      place := Driving;
    }

    method AskForStep(since: real)
      requires Valid()
      modifies this`idleDue, this`stepWanted, this`times
      ensures Valid() && View() == RequestStep(Settings(), old(View()), since)
    {
      idleDue := At(since + timeouts.idle);
      stepWanted := true;
      times := times.(asked := since);
    }

    method StopRunner(next: Then)
      requires Valid()
      modifies this`place, this`cut, this`cleanup
      ensures Valid() && View() == BeginStop(old(View()), next)
    {
      place := Stopping(next);
      cut := cut || next.CloseSlot?;
      if cleanup.NotAsked? {
        cleanup := Asked;
      }
    }

    method End(code: FailureCode, message: string, pending: Option<RunEvent>)
      requires Valid()
      modifies this, wire
      ensures Valid() && View() == EndWith(old(View()), code, message, pending)
    {
      wire.DecideFailure(code, message);
      StopRunner(FillLast(pending));
    }

    method FillSlot(frame: RunEvent, fillAt: real)
      requires Valid()
      modifies slot, this`stallDue, this`times
      ensures Valid() && View() == Fill(Settings(), old(View()), frame, fillAt)
    {
      slot.Fill(frame);
      stallDue := fillAt + timeouts.stall;
      times := times.(filled := fillAt);
    }

    method QueueFrame(frame: RunEvent, fillAt: real, beatAt: real)
      requires Valid()
      modifies slot, this`stallDue, this`heartbeatDue, this`times
      ensures Valid() && View() == Queue(Settings(), old(View()), frame, fillAt, beatAt)
    {
      FillSlot(frame, fillAt);
      PostponeBeat(beatAt);
    }

    method PostponeBeat(beatAt: real)
      requires Valid()
      modifies this`heartbeatDue, this`times
      ensures Valid() && View() == QuietFrom(Settings(), old(View()), beatAt)
    {
      heartbeatDue := beatAt + timeouts.heartbeat;
      times := times.(quiet := beatAt);
    }

    /** One round of the supervisor's loop, from its clock reading to its next wait. */
    method LookOnce(now: real, fillAt: real, beatAt: real)
      requires Valid() && place.Driving?
      modifies this, slot, wire, wire.stream
      ensures Valid() && View() == Looked(Settings(), old(View()), now, fillAt, beatAt)
    {
      var stall := if slot.frame.None? then Never else At(stallDue);
      var action := Decided(now, outcomeReady, Deadlines(At(heartbeatDue), At(maximumDue), idleDue, stall));
      match action
      case HandleEvent => HandleOutcome();
      case EndAtLimit => End(LimitExceeded, LIMIT_EXCEEDED_MESSAGE, None);
      case EndIdle => End(IdleTimeout, IDLE_TIMEOUT_MESSAGE, None);
      case Beat => SendBeat(fillAt, beatAt);
      case Drop => StopRunner(CloseSlot);
      case Wait =>
    }

    method HandleOutcome()
      requires Valid() && outcomeReady
      modifies this, wire, wire.stream
      ensures Valid() && View() == Handled(Settings(), old(View()))
    {
      hide FrameFor;
      ghost var s := View();
      var handled := outcome.value;
      outcome, idleDue, outcomeReady := None, Never, false;
      var frame := wire.FrameOf(handled);
      FramingKeepsTheRun(s.wire, handled, wire.encode);
      GoOn(frame);
    }

    method GoOn(frame: Option<RunEvent>)
      requires Valid()
      modifies this`place, this`cut, this`cleanup, this`sent
      ensures Valid() && View() == WentOn(old(View()), frame)
    {
      if wire.decided.Some? {
        StopRunner(FillLast(None));
      } else if frame.Some? {
        place := Delivering(frame.value);
        sent := sent + [frame.value];
      } else {
        place := Checking;
      }
    }

    method SendBeat(fillAt: real, beatAt: real)
      requires Valid()
      modifies this, slot, wire, wire.stream
      ensures Valid() && View() == Beaten(Settings(), old(View()), fillAt, beatAt)
    {
      if slot.frame.Some? {
        PostponeBeat(beatAt);
        return;
      }
      ghost var s := View();
      var beat := Event(wire.runId, wire.seqNo, Heartbeat);
      var refusal := wire.Heartbeat();
      SendingKeepsTheRun(s.wire, beat, wire.encode);
      if refusal.Some? {
        StopRunner(CloseSlot);
      } else {
        sent := sent + [beat];
        QueueFrame(beat, fillAt, beatAt);
      }
    }

    method DeliverOnce(now: real, fillAt: real, beatAt: real)
      requires Valid() && place.Delivering?
      modifies this, slot, wire
      ensures Valid() && View() == Delivered(Settings(), old(View()), now, fillAt, beatAt)
    {
      if slot.frame.None? {
        QueueFrame(place.frame, fillAt, beatAt);
        place := Checking;
        return;
      }
      var action := Decided(now, false, Deadlines(Never, At(maximumDue), Never, At(stallDue)));
      if action.Drop? {
        StopRunner(CloseSlot);
      } else if action.EndAtLimit? {
        End(LimitExceeded, LIMIT_EXCEEDED_MESSAGE, Some(place.frame));
      }
    }

    method CheckOnce(now: real, since: real)
      requires Valid() && place.Checking?
      modifies this, wire
      ensures Valid() && View() == Checked(Settings(), old(View()), now, since)
    {
      var stall := if slot.frame.None? then Never else At(stallDue);
      var action := Decided(now, false, Deadlines(Never, At(maximumDue), Never, stall));
      if action.Drop? {
        StopRunner(CloseSlot);
      } else if action.EndAtLimit? {
        End(LimitExceeded, LIMIT_EXCEEDED_MESSAGE, None);
      } else {
        AskForStep(since);
        place := Driving;
      }
    }

    method ResumeStopped(raises: bool)
      requires Valid() && place.Stopping? && cleanup.Finished?
      modifies this, slot
      ensures Valid() && View() == Resumed(old(View()), raises)
    {
      if place.next.FillLast? && !raises && wire.terminal.Some? {
        place := Filling(OneOrNone(place.next.pending) + [wire.terminal.value]);
      } else {
        slot.Close();
        place, cut := Closed, true;
      }
    }

    method FillOnce(now: real, fillAt: real)
      requires Valid() && place.Filling?
      modifies this, slot
      ensures Valid() && View() == Filled(Settings(), old(View()), now, fillAt)
    {
      if place.frames == [] {
        slot.Close();
        place := Closed;
      } else if slot.frame.None? {
        FillSlot(place.frames[0], fillAt);
        place := Filling(place.frames[1..]);
      } else {
        var action := Decided(now, false, Deadlines(Never, Never, Never, At(stallDue)));
        if action.Drop? {
          StopRunner(CloseSlot);
        }
      }
    }

    // -------------------------------------------------------------- the pump, the cleanup, the client

    method CollectLosses(met: seq<Group>)
      requires Valid()
      modifies this`losses
      ensures Valid() && View() == Collected(old(View()), met)
    {
      ghost var s := View();
      var i := 0;
      while i < |met|
        invariant i <= |met| && Valid()
        invariant Collected(View(), met[i..]) == Collected(s, met)
      {
        assert met[i..][1..] == met[i + 1..];
        if met[i] !in losses {
          losses := losses + [met[i]];
        }
        i := i + 1;
      }
    }

    method PumpTakesStep()
      requires Valid() && pump.AwaitsStep? && stepWanted
      modifies this`stepWanted, this`pump
      ensures Valid() && View() == Next(Settings(), old(View()), TakeStep)
    {
      stepWanted, pump := false, Stepping;
    }

    method PumpYields(yielded: RunnerOutcome, met: seq<Group>)
      requires Valid() && pump.Stepping?
      modifies this
      ensures Valid() && View() == Yielded(old(View()), yielded, met)
    {
      hide Collected;
      ghost var s := View();
      if yielded.RunnerRaised? {
        CollectLosses(met);
        CollectedChangesLosses(s, met);
        if stopping {
          pump := Closing;
          return;
        }
      }
      outcome, outcomeReady := Some(yielded), true;
      pump := if stopping then Closing else AwaitsStep;
    }

    method PumpBreaks(met: seq<Group>)
      requires Valid() && (pump.Stepping? || (pump.AwaitsStep? && stopping))
      modifies this`losses, this`pump
      ensures Valid() && View() == Next(Settings(), old(View()), Break(met))
    {
      CollectLosses(met);
      pump := Closing;
    }

    method PumpEnds(met: seq<Group>)
      requires Valid() && pump.Closing?
      modifies this`losses, this`pump
      ensures Valid() && View() == Next(Settings(), old(View()), EndPump(met))
    {
      CollectLosses(met);
      pump := PumpDone;
    }

    method ReapStarts()
      requires Valid() && cleanup.Asked?
      modifies this`stopping, this`cleanup
      ensures Valid() && View() == Next(Settings(), old(View()), StartReap)
    {
      stopping, cleanup := true, AwaitsPump;
    }

    method ReapFinishes()
      requires Valid() && cleanup.AwaitsPump? && pump.PumpDone?
      requires wire.terminal.None? && wire.stream.terminal.None?
      modifies this`sent, this`handedOver, this`over, this`cleanup, wire, wire.stream
      ensures Valid() && View() == Reaped(Settings(), old(View()))
    {
      hide Commit, RecordEnding;
      ghost var w := wire.View();
      var lost := losses != [];
      var ok := wire.CommitTerminal(lost);
      CommittingKeepsTheRun(w, lost, wire.encode);
      EndRecord();
    }

    method EndRecord()
      requires Valid() && (wire.terminal.None? ==> wire.stream.terminal.None?)
      modifies this`sent, this`handedOver, this`over, this`cleanup
      ensures slot.Valid() && outcomeReady == outcome.Some? && View() == RecordEnded(old(View()))
    {
      hide RecordEnding;
      var lost := losses != [];
      var ending := wire.RunOver(lost);
      handedOver, over, cleanup := if lost then Some(losses) else None, Some(ending), Finished;
      sent := sent + OneOrNone(wire.terminal);
    }

    method ClientTakesFrame() returns (frame: Option<RunEvent>)
      requires Valid() && !clientDone && slot.forClient
      modifies this`clientDone, this`taken, slot
      ensures Valid() && View() == Taken(old(View()))
      ensures frame == old(slot.frame)
    {
      frame := slot.Take();
      if frame.Some? {
        taken := taken + [frame.value];
      } else {
        clientDone := true;
      }
    }
  }

  lemma FramingKeepsTheRun(w: Writer, outcome: RunnerOutcome, encode: Encoder)
    requires w.stream.runId.Some?
    ensures FrameFor(w, outcome, encode).0.stream.runId.Some?
  {
  }

  lemma SendingKeepsTheRun(w: Writer, e: RunEvent, encode: Encoder)
    requires w.stream.runId.Some?
    ensures Send(w, e, encode).0.stream.runId.Some?
  {
  }

  lemma CommittingKeepsTheRun(w: Writer, lost: bool, encode: Encoder)
    requires w.stream.runId.Some? && w.terminal.None? && w.stream.terminal.None?
    ensures var v := Commit(w, lost, encode).0;
            v.stream.runId.Some? && (v.terminal.None? ==> v.stream.terminal.None?)
  {
  }

  lemma CollectedChangesLosses(s: Run, met: seq<Group>)
    ensures Collected(s, met) == s.(losses := Collected(s, met).losses)
    decreases |met|
  {
    if met != [] {
      CollectedChangesLosses(if met[0] in s.losses then s else s.(losses := s.losses + [met[0]]), met[1..]);
    }
  }
}
