/** What a supervised run promises its client, its record and its place, over every interleaving. */
module SupervisionProperties {
  import opened Wire
  import opened RunStreams
  import opened WireRuns
  import opened Supervision

  /** The run just after its `run_started` was sent, which the response yields before any other frame. */
  function Begun(w: Writer, started: RunEvent, t: Timeouts, startedAt: real): Run {
    Run(w, [started], [started], Slot(None, false), false, Unstarted, false,
        AwaitsStep, false, None, [], NotAsked, None, None,
        startedAt + t.heartbeat, startedAt + t.maximum, Never, 0.0, Since(startedAt, startedAt, startedAt, 0.0))
  }

  ghost predicate Begins(c: Config, s: Run) {
    exists runId, limits, effects, intervalS, startedAt ::
      var w := NewWriter(runId, limits, effects);
      var started := Event(runId, 0, RunStarted(intervalS));
      && Send(w, started, c.encode).1.None?
      && s == Begun(Send(w, started, c.encode).0, started, c.timeouts, startedAt)
  }

  ghost predicate Possible(c: Config, s: Run, steps: seq<Step>)
    decreases |steps|
  {
    && s.wire.stream.runId.Some?
    && (steps == [] || (Enabled(s, steps[0]) && Possible(c, Next(c, s, steps[0]), steps[1..])))
  }

  ghost function After(c: Config, s: Run, steps: seq<Step>): Run
    requires Possible(c, s, steps)
    decreases |steps|
  {
    if steps == [] then s else After(c, Next(c, s, steps[0]), steps[1..])
  }

  lemma BeginningKeeps(c: Config, s: Run)
    requires Begins(c, s)
    ensures Inv(c, s)
  {
    var runId, limits, effects, intervalS, startedAt :|
      var w := NewWriter(runId, limits, effects);
      var started := Event(runId, 0, RunStarted(intervalS));
      && Send(w, started, c.encode).1.None?
      && s == Begun(Send(w, started, c.encode).0, started, c.timeouts, startedAt);
    var w := NewWriter(runId, limits, effects);
    assert Wrote(w, [], c.encode);
    var started: RunEvent := Event(runId, 0, RunStarted(intervalS));
    SendingKeeps(w, [], started, c.encode);
    assert [] + [started] == [started];
    assert !Ended([started]);
  }

  lemma {:induction false} RunsKeepTheInvariant(c: Config, s: Run, steps: seq<Step>)
    requires Possible(c, s, steps) && Inv(c, s)
    ensures Inv(c, After(c, s, steps))
    decreases |steps|
  {
    if steps != [] {
      hide Inv, Next, Enabled;
      EveryStepKeepsTheInvariant(c, s, steps[0]);
      RunsKeepTheInvariant(c, Next(c, s, steps[0]), steps[1..]);
    }
  }

  lemma PrefixesAreRuns(t: Trace, n: nat)
    requires n <= |t| && Accepted(t)
    ensures InRunLanguage(t[..n]) && InRunLanguage(t)
  {
    AcceptedIsTheRunLanguage(t);
    forall k | 0 <= k < n ensures MayFollow(t[..n][..k], t[..n][k]) {
      assert t[..n][..k] == t[..k];
    }
  }

  lemma TakenIsAPrefix(c: Config, s: Run)
    requires Inv(c, s)
    ensures Given(s) <= s.sent && s.taken <= Given(s)
    ensures s.clientDone && !s.cut ==> s.taken == s.sent && s.wire.terminal.Some?
    ensures s.wire.terminal.Some? ==> Ended(s.sent)
    ensures Accepted(s.sent) && s.wire.seqNo == |s.sent| && s.sent != [] && s.wire.runId == s.sent[0].runId
  {
    hide BytesOf, CallsOf, PromisesOf, Accepted, OneStepAtATime, NoDoubles;
    if s.wire.terminal.Some? {
      assert s.sent[|s.sent| - 1].body.Terminal();
    }
  }

  ghost predicate Delivers(t: Run) {
    && t.taken <= t.sent && InRunLanguage(t.sent) && InRunLanguage(t.taken)
    && (forall i :: 0 <= i < |t.taken| ==> t.taken[i].seqNo == i && t.taken[i].runId == t.wire.runId)
    && (Ended(t.taken) ==> t.taken == t.sent && t.slot.frame.None?)
    && (t.clientDone && !t.cut ==> t.taken == t.sent && Ended(t.taken))
  }

  lemma PrefixOfARun(t: Trace, taken: Trace)
    requires Accepted(t) && taken <= t
    ensures InRunLanguage(t) && InRunLanguage(taken)
    ensures forall i :: 0 <= i < |taken| ==> taken[i].seqNo == i && taken[i].runId == t[0].runId
    ensures Ended(taken) ==> taken == t
  {
    hide InRunLanguage, Accepted;
    PrefixesAreRuns(t, |taken|);
    assert t[..|taken|] == taken;
    RunsAreWellFormed(t);
    assert forall i :: 0 <= i < |taken| ==> taken[i] == t[i];
    if Ended(taken) {
      var i :| 0 <= i < |taken| && taken[i].body.Terminal();
      assert t[i].body.Terminal();
    }
  }

  lemma TakenPrefixesDeliver(c: Config, t: Run)
    requires Inv(c, t)
    ensures Delivers(t)
  {
    TakenIsAPrefix(c, t);
    hide Inv, InRunLanguage, Accepted, Ended;
    PrefixOfARun(t.sent, t.taken);
  }

  /** The client takes a prefix of what the stream accepted, numbered without a gap; a terminal it
      took means that it took every frame of the run; and a stream that ends uncut gave it all. */
  lemma TheClientGetsAPrefixOfTheRun(c: Config, s: Run, steps: seq<Step>)
    requires Begins(c, s) && Possible(c, s, steps)
    ensures Delivers(After(c, s, steps))
  {
    BeginningKeeps(c, s);
    RunsKeepTheInvariant(c, s, steps);
    hide Inv, After, Possible, Begins, Delivers;
    TakenPrefixesDeliver(c, After(c, s, steps));
  }

  /** The runner's close comes before any terminal, and a success that waits for it is still due. */
  lemma TheTerminalWaitsForTheClose(c: Config, s: Run, steps: seq<Step>)
    requires Begins(c, s) && Possible(c, s, steps)
    ensures var t := After(c, s, steps);
            && (Ended(t.sent) <==> t.wire.terminal.Some?)
            && (t.over.Some? || t.wire.terminal.Some? ==> t.pump.PumpDone?)
            && (t.over.None? && t.wire.decided.Some? && t.wire.decided.value.Success? ==>
                t.wire.decided.value.event.seqNo == |t.sent|)
  {
    BeginningKeeps(c, s);
    RunsKeepTheInvariant(c, s, steps);
    var t := After(c, s, steps);
    if t.wire.terminal.Some? {
      assert t.sent[|t.sent| - 1].body.Terminal();
    }
  }

  /** The record of a run is one whole run, equal to what was sent when a terminal was committed; a
      containment loss makes its end the provider's failure and hands every lost group over. */
  lemma TheRecordIsOneWholeRun(c: Config, s: Run, steps: seq<Step>)
    requires Begins(c, s) && Possible(c, s, steps)
    ensures var t := After(c, s, steps);
            t.over.Some? ==>
              && Accepted(WithoutLast(t) + [t.over.value]) && t.over.value.body.Terminal()
              && (t.wire.terminal.Some? ==> WithoutLast(t) + [t.over.value] == t.sent)
              && t.handedOver == (if t.losses == [] then None else Some(t.losses))
              && NoDoubles(t.losses)
              && (t.losses != [] ==> t.over.value.body == Failed(ProviderError, RUNNER_FAILED_MESSAGE))
  {
    BeginningKeeps(c, s);
    RunsKeepTheInvariant(c, s, steps);
  }

  // ---------------------------------------------------------------- what stands

  /** From `s` to a later `t`: a decision, a terminal and a record stand, and after the decision
      nothing is sent but the one terminal. */
  predicate Stands(s: Run, t: Run) {
    && (s.wire.decided.Some? ==> t.wire.decided == s.wire.decided)
    && (s.wire.terminal.Some? ==> t.wire.terminal == s.wire.terminal)
    && (s.over.Some? ==> t.over == s.over && t.handedOver == s.handedOver && t.wire.terminal == s.wire.terminal)
    && (s.cut ==> t.cut)
    && (!Live(s.place) ==> !Live(t.place))
    && s.sent <= t.sent && s.taken <= t.taken
    && (!Live(s.place) ==> t.sent == s.sent || (s.over.None? && t.over.Some? && t.sent == s.sent + OneOrNone(t.wire.terminal)))
  }

  lemma StandsThrough(s: Run, t: Run, u: Run)
    requires Stands(s, t) && Stands(t, u)
    ensures Stands(s, u)
  {
  }

  lemma EveryStepStands(c: Config, s: Run, step: Step)
    requires Enabled(s, step) && s.wire.stream.runId.Some?
    requires Inv(c, s)
    ensures Stands(s, Next(c, s, step))
  {
    if !s.reap.Finished? {
      RecordIsOpen(c, s);
    }
    hide RecordKept, FramesKept, Stands, Next, OneStepAtATime;
    if step.Look? {
      LookingStands(c, s, step);
    } else if step.FinishReap? {
      ReapingStands(c, s, step);
    } else if step.Yield? || step.Break? || step.EndPump? {
      PumpStands(c, s, step);
    } else {
      OthersStand(c, s, step);
    }
  }

  lemma CommittingKeepsTheRun(w: Writer, lost: bool, encode: Encoder)
    requires w.stream.runId.Some?
    ensures Commit(w, lost, encode).0.stream.runId.Some?
  {
  }

  lemma ReapingStands(c: Config, s: Run, step: Step)
    requires Enabled(s, step) && step.FinishReap?
    requires s.wire.stream.runId.Some? && s.over.None? && s.wire.terminal.None?
    requires PlaceFits(s)
    ensures Stands(s, Next(c, s, step))
  {
    CommittingKeepsTheDecision(s.wire, s.losses != [], c.encode);
    CommittingKeepsTheRun(s.wire, s.losses != [], c.encode);
    hide Commit, RecordEnding;
  }

  lemma PumpStands(c: Config, s: Run, step: Step)
    requires Enabled(s, step) && (step.Yield? || step.Break? || step.EndPump?)
    requires s.wire.stream.runId.Some? && NoDoubles(s.losses)
    ensures Stands(s, Next(c, s, step))
  {
    CollectedKeeps(s, step.met);
    hide Collected, NoDoubles;
  }

  lemma OthersStand(c: Config, s: Run, step: Step)
    requires Enabled(s, step)
    requires !step.Look? && !step.FinishReap? && !step.Yield? && !step.Break? && !step.EndPump?
    requires s.wire.stream.runId.Some? && PlaceFits(s)
    ensures Stands(s, Next(c, s, step))
  {
    hide Looked, Reaped, Yielded, Collected, Commit, Decided, InHand;
  }

  lemma LookingStands(c: Config, s: Run, step: Step)
    requires Enabled(s, step) && step.Look?
    requires s.wire.stream.runId.Some? && s.over.None? && s.wire.terminal.None?
    requires PlaceFits(s)
    ensures Stands(s, Next(c, s, step))
  {
    SendingKeepsTheDecision(s.wire, Due(s.wire, Heartbeat), c.encode);
    if s.outcome.Some? {
      FramingKeepsTheTerminal(s.wire, s.outcome.value, c.encode);
    }
    hide Send, FrameFor, Due, Decided;
  }

  /** A run decides at most once and commits at most one terminal, over every run. */
  lemma {:induction false} DecisionsAndTerminalsStand(c: Config, s: Run, steps: seq<Step>)
    requires Possible(c, s, steps) && Inv(c, s)
    ensures Stands(s, After(c, s, steps))
    decreases |steps|
  {
    if steps != [] {
      var t := Next(c, s, steps[0]);
      EveryStepStands(c, s, steps[0]);
      EveryStepKeepsTheInvariant(c, s, steps[0]);
      hide Inv, Next, Enabled, Stands;
      DecisionsAndTerminalsStand(c, t, steps[1..]);
      StandsThrough(s, t, After(c, t, steps[1..]));
    }
  }

  // ---------------------------------------------------------------- the deadlines mean what they say

  /** Every deadline is its timeout after what it waits for. */
  predicate Timed(c: Config, s: Run) {
    && s.maximumDue == s.since.started + c.timeouts.maximum
    && s.heartbeatDue == s.since.quiet + c.timeouts.heartbeat
    && (s.idleDue.At? ==> s.idleDue.time == s.since.asked + c.timeouts.idle)
    && (s.slot.frame.Some? ==> s.stallDue == s.since.filled + c.timeouts.stall)
  }

  /** No deadline changed; at most the step that was asked for came, or the slot was vacated. */
  predicate SameTimes(s: Run, t: Run) {
    && t.maximumDue == s.maximumDue && t.heartbeatDue == s.heartbeatDue && t.stallDue == s.stallDue && t.since == s.since
    && (t.idleDue == s.idleDue || t.idleDue.Never?) && (t.slot.frame.Some? ==> s.slot.frame.Some?)
  }

  lemma SameTimesKeep(c: Config, s: Run, t: Run)
    requires Timed(c, s) && SameTimes(s, t)
    ensures Timed(c, t) && t.since.started == s.since.started
  {
  }

  lemma PumpKeepsTheTimes(c: Config, s: Run, step: Step)
    requires Enabled(s, step) && (step.Yield? || step.Break? || step.EndPump?)
    requires s.wire.stream.runId.Some? && NoDoubles(s.losses)
    ensures SameTimes(s, Next(c, s, step))
  {
    CollectedKeeps(s, step.met);
    hide Collected, NoDoubles;
  }

  lemma BeatingKeepsTheTimes(c: Config, s: Run, fillAt: real, beatAt: real)
    requires Timed(c, s)
    ensures Timed(c, Beaten(c, s, fillAt, beatAt)) && Beaten(c, s, fillAt, beatAt).since.started == s.since.started
  {
    hide Send, Due;
  }

  lemma HandlingKeepsTheTimes(c: Config, s: Run)
    requires s.outcome.Some?
    ensures SameTimes(s, Handled(c, s))
  {
    hide FrameFor;
  }

  lemma LookingKeepsTheTimes(c: Config, s: Run, now: real, fillAt: real, beatAt: real)
    requires Timed(c, s)
    ensures Timed(c, Looked(c, s, now, fillAt, beatAt)) && Looked(c, s, now, fillAt, beatAt).since.started == s.since.started
  {
    hide Handled, Beaten, Timed, DeadlinesOf;
    var t := Looked(c, s, now, fillAt, beatAt);
    var action := Decided(now, s.outcome.Some?, DeadlinesOf(s));
    if action.Beat? {
      BeatingKeepsTheTimes(c, s, fillAt, beatAt);
    } else {
      if s.outcome.Some? {
        HandlingKeepsTheTimes(c, s);
      }
      SameTimesKeep(c, s, t);
    }
  }

  lemma BlockedKeepsTheTimes(c: Config, s: Run, now: real, fillAt: real, beatAt: real)
    requires Timed(c, s) && s.place.Delivering?
    ensures Timed(c, Delivered(c, s, now, fillAt, beatAt)) && Delivered(c, s, now, fillAt, beatAt).since.started == s.since.started
  {
    hide Decided;
  }

  lemma ReapingKeepsTheTimes(c: Config, s: Run)
    requires s.wire.stream.runId.Some?
    ensures SameTimes(s, Reaped(c, s))
  {
    hide Commit, RecordEnding;
  }

  lemma RequestingKeepsTheTimes(c: Config, s: Run, since: real)
    requires Timed(c, s)
    ensures Timed(c, RequestStep(c, s, since).(place := Driving)) && RequestStep(c, s, since).since.started == s.since.started
  {
  }

  lemma CheckingKeepsTheTimes(c: Config, s: Run, now: real, since: real)
    requires Timed(c, s) && s.place.Checking?
    ensures Timed(c, Checked(c, s, now, since)) && Checked(c, s, now, since).since.started == s.since.started
  {
    hide Decided, Timed, RequestStep;
    RequestingKeepsTheTimes(c, s, since);
    SameTimesKeep(c, s, if Decided(now, false, BlockedDeadlines(s)).Drop? || Decided(now, false, BlockedDeadlines(s)).EndAtLimit?
                        then Checked(c, s, now, since) else s);
  }

  lemma FillingKeepsTheTimes(c: Config, s: Run, now: real, fillAt: real)
    requires Timed(c, s) && s.place.Filling?
    ensures Timed(c, Filled(c, s, now, fillAt)) && Filled(c, s, now, fillAt).since.started == s.since.started
  {
    hide Decided;
  }

  lemma OthersKeepTheTimes(c: Config, s: Run, step: Step)
    requires Enabled(s, step)
    requires step.Resume? || step.Interrupt? || step.LeaveUnstarted? || step.TakeStep? || step.StartReap? || step.ClientTakes?
    requires s.wire.stream.runId.Some?
    ensures SameTimes(s, Next(c, s, step))
  {
    hide Collected, Reaped, Yielded, Delivered, Decided, InHand, Looked, Checked, Filled;
  }

  lemma EveryStepKeepsTheTimes(c: Config, s: Run, step: Step)
    requires Enabled(s, step) && s.wire.stream.runId.Some?
    requires Timed(c, s) && NoDoubles(s.losses)
    ensures Timed(c, Next(c, s, step)) && Next(c, s, step).since.started == s.since.started
  {
    var t := Next(c, s, step);
    hide Looked, Delivered, Reaped, Timed, Checked, Filled, Yielded, Collected;
    match step
    case Look(now, fillAt, beatAt) => LookingKeepsTheTimes(c, s, now, fillAt, beatAt);
    case PutDown(now, fillAt, beatAt) => BlockedKeepsTheTimes(c, s, now, fillAt, beatAt);
    case FinishReap =>
      ReapingKeepsTheTimes(c, s);
      SameTimesKeep(c, s, t);
    case Yield(_, _) =>
      PumpKeepsTheTimes(c, s, step);
      SameTimesKeep(c, s, t);
    case Break(_) =>
      PumpKeepsTheTimes(c, s, step);
      SameTimesKeep(c, s, t);
    case EndPump(_) =>
      PumpKeepsTheTimes(c, s, step);
      SameTimesKeep(c, s, t);
    case Start(startedAt) => RequestingKeepsTheTimes(c, s, startedAt);
    case Check(now, since) => CheckingKeepsTheTimes(c, s, now, since);
    case FillNext(now, fillAt) => FillingKeepsTheTimes(c, s, now, fillAt);
    case _ =>
      OthersKeepTheTimes(c, s, step);
      SameTimesKeep(c, s, t);
  }

  lemma {:induction false} RunsKeepTheTimes(c: Config, s: Run, steps: seq<Step>)
    requires Possible(c, s, steps) && Inv(c, s) && Timed(c, s)
    ensures Timed(c, After(c, s, steps))
    decreases |steps|
  {
    if steps != [] {
      EveryStepKeepsTheTimes(c, s, steps[0]);
      EveryStepKeepsTheInvariant(c, s, steps[0]);
      hide Inv, Next, Enabled, Timed;
      RunsKeepTheTimes(c, Next(c, s, steps[0]), steps[1..]);
    }
  }

  /** A client is dropped only when a frame waited for it for the whole stall timeout; a run is ended at
      its maximum or for silence, and a heartbeat is due, only after that timeout in full. */
  lemma NothingEndsEarly(c: Config, s: Run, steps: seq<Step>, now: real)
    requires Begins(c, s) && Possible(c, s, steps)
    ensures var t := After(c, s, steps);
            match Decided(now, t.outcome.Some?, DeadlinesOf(t))
            case Drop => t.slot.frame.Some? && now - t.since.filled >= c.timeouts.stall
            case EndAtLimit => now - t.since.started >= c.timeouts.maximum
            case EndIdle => now - t.since.asked >= c.timeouts.idle
            case Beat => now - t.since.quiet >= c.timeouts.heartbeat
            case HandleEvent => t.outcome.Some?
            case Wait => true
  {
    BeginningKeeps(c, s);
    BeginsOnTime(c, s);
    RunsKeepTheTimes(c, s, steps);
    hide Begins, Possible, After, Inv;
  }

  lemma BeginsOnTime(c: Config, s: Run)
    requires Begins(c, s)
    ensures Timed(c, s)
  {
  }
}
