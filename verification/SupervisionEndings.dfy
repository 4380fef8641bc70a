/** When the supervisor ends a run, and with what: every region of it told by the times since the run started, was
    last quiet, last asked for a step and last filled its slot. */
module SupervisionEndings {
  import opened Wire
  import opened RunStreams
  import opened WireRuns
  import opened RunEventFrames
  import opened Supervision
  import opened SupervisionProperties

  // ---------------------------------------------------------------- what has come

  /** A frame has waited for the client for the whole stall timeout. */
  predicate Stalled(c: Config, s: Run, now: real) {
    s.slot.frame.Some? && now - s.since.filled >= c.timeouts.stall
  }

  predicate AtItsMaximum(c: Config, s: Run, now: real) {
    now - s.since.started >= c.timeouts.maximum
  }

  predicate Silent(c: Config, s: Run, now: real) {
    now - s.since.asked >= c.timeouts.idle
  }

  predicate HeartbeatDue(c: Config, s: Run, now: real) {
    now - s.since.quiet >= c.timeouts.heartbeat
  }

  /** The run is stopped with `decided`, and nothing was sent. */
  predicate EndsWith(s: Run, t: Run, decided: Decision, pending: Option<RunEvent>) {
    && t == s.(wire := s.wire.(decided := Some(decided)), place := Stopping(FillLast(pending)), reap := Asked)
  }

  /** The client is given up: nothing is decided, nothing more is for it. */
  predicate GivesUp(s: Run, t: Run) {
    t == s.(place := Stopping(CloseSlot), cut := true, reap := Asked)
  }

  // ---------------------------------------------------------------- one round of the supervisor

  /** What one look does. A ready outcome comes before the maximum, the maximum before the silence, the silence before
      a heartbeat; only a stalled client comes before them all. */
  ghost predicate LooksRight(c: Config, s: Run, now: real, fillAt: real, beatAt: real, t: Run) {
    if Stalled(c, s, now) then GivesUp(s, t)
    else if s.outcome.Some? then HandlesIt(c, s, s.outcome.value, t)
    else if AtItsMaximum(c, s, now) then EndsWith(s, t, Failure(LimitExceeded, LIMIT_EXCEEDED_MESSAGE), None)
    else if Silent(c, s, now) then EndsWith(s, t, Failure(IdleTimeout, IDLE_TIMEOUT_MESSAGE), None)
    else if HeartbeatDue(c, s, now) then BeatsRight(c, s, fillAt, beatAt, t)
    else t == s
  }

  /** A heartbeat that is due goes into a vacant slot, under the due number; an occupied slot only puts it off, and
      one that cannot be written gives the client up. */
  ghost predicate BeatsRight(c: Config, s: Run, fillAt: real, beatAt: real, t: Run) {
    var beat := Event(s.wire.runId, |s.sent|, Heartbeat);
    if s.slot.frame.Some? then
      t == s.(heartbeatDue := beatAt + c.timeouts.heartbeat, since := s.since.(quiet := beatAt))
    else if c.encode(beat).None? then GivesUp(s, t)
    else
      && t == s.(wire := t.wire, sent := s.sent + [beat], slot := Slot(Some(beat), s.slot.closed),
                 stallDue := fillAt + c.timeouts.stall, heartbeatDue := beatAt + c.timeouts.heartbeat,
                 since := s.since.(filled := fillAt, quiet := beatAt))
      && t.wire == s.wire.(seqNo := |s.sent| + 1, stream := PromisesOf(s.sent + [beat]))
  }

  /** The outcome is consumed and the silence over. What it decided ends the run; its frame is for the client, and an
      outcome without a frame only asks for the next step. */
  ghost predicate HandlesIt(c: Config, s: Run, outcome: RunnerOutcome, t: Run) {
    var (w, frame) := FrameFor(s.wire, outcome, c.encode);
    && t == s.(wire := w, outcome := None, idleDue := Never, place := t.place, sent := t.sent, reap := t.reap)
    && t.sent == (if frame.Some? then s.sent + [frame.value] else s.sent)
    && (w.decided.Some? ==> t.place == Stopping(FillLast(None)) && t.reap == Asked)
    && (w.decided.None? ==> t.reap == s.reap && t.place == if frame.Some? then Delivering(frame.value) else Checking)
  }

  lemma HandlingIsRight(c: Config, s: Run, t: Run)
    requires RecordKept(c, s) && PlaceFits(s) && s.place.Driving? && s.outcome.Some? && t == Handled(c, s)
    ensures HandlesIt(c, s, s.outcome.value, t)
  {
    hide Wrote, FrameFor, Accepted, Ended;
    FrameKeeps(s.wire, s.sent, s.outcome.value, c.encode);
    assert s.sent + [] == s.sent;
  }

  lemma BeatingIsRight(c: Config, s: Run, fillAt: real, beatAt: real, t: Run)
    requires RecordKept(c, s) && PlaceFits(s) && s.place.Driving? && t == Beaten(c, s, fillAt, beatAt)
    ensures BeatsRight(c, s, fillAt, beatAt, t)
  {
    hide Wrote, Send, Accepted, Ended, PromisesOf;
    if s.slot.frame.None? {
      AHeartbeatGoesOutUncharged(s.wire, s.sent, Event(s.wire.runId, |s.sent|, Heartbeat), c.encode);
    }
  }

  lemma LookingIsRight(c: Config, s: Run, now: real, fillAt: real, beatAt: real, t: Run)
    requires Enabled(s, Look(now, fillAt, beatAt)) && s.wire.stream.runId.Some?
    requires Timed(c, s) && RecordKept(c, s) && PlaceFits(s) && OneStepAtATime(s)
    requires t == Next(c, s, Look(now, fillAt, beatAt))
    ensures LooksRight(c, s, now, fillAt, beatAt, t)
  {
    hide RecordKept, Handled, Beaten, HandlesIt, BeatsRight;
    if !Stalled(c, s, now) {
      if s.outcome.Some? {
        HandlingIsRight(c, s, t);
      } else if !AtItsMaximum(c, s, now) && !Silent(c, s, now) && HeartbeatDue(c, s, now) {
        BeatingIsRight(c, s, fillAt, beatAt, t);
      }
    }
  }

  // ---------------------------------------------------------------- the other regions of the supervisor

  /** A frame in hand goes into the slot as soon as it is vacant; until then only the stall and the maximum end the
      wait, and at the maximum the frame still goes out before the terminal. */
  ghost predicate PutsDownRight(c: Config, s: Run, now: real, fillAt: real, beatAt: real, frame: RunEvent, t: Run) {
    if s.slot.frame.None? then
      t == s.(place := Checking, slot := Slot(Some(frame), s.slot.closed), stallDue := fillAt + c.timeouts.stall,
              heartbeatDue := beatAt + c.timeouts.heartbeat, since := s.since.(filled := fillAt, quiet := beatAt))
    else if Stalled(c, s, now) then GivesUp(s, t)
    else if AtItsMaximum(c, s, now)
    then EndsWith(s, t, Failure(LimitExceeded, LIMIT_EXCEEDED_MESSAGE), Some(frame))
    else t == s
  }

  /** The next step is asked for unless the client stalled or the maximum has come; the silence counts from then. */
  ghost predicate ChecksRight(c: Config, s: Run, now: real, since: real, t: Run) {
    if Stalled(c, s, now) then GivesUp(s, t)
    else if AtItsMaximum(c, s, now) then EndsWith(s, t, Failure(LimitExceeded, LIMIT_EXCEEDED_MESSAGE), None)
    else t == s.(place := Driving, stepWanted := true, idleDue := At(since + c.timeouts.idle),
                 since := s.since.(asked := since))
  }

  /** Once the runner is stopped: the frame in hand, then the terminal, go to the client; they do not when it was given
      up, when no terminal was committed, or when what was recorded raises. */
  predicate ResumesRight(s: Run, raises: bool, next: Then, t: Run) {
    if next.CloseSlot? || raises || s.wire.terminal.None?
    then t == s.(place := Closed, cut := true, slot := Slot(s.slot.frame, true))
    else match next.pending
         case Some(frame) => t == s.(place := Filling([frame, s.wire.terminal.value]))
         case None => t == s.(place := Filling([s.wire.terminal.value]))
  }

  /** The last frames go out one by one, each into a vacant slot; only a stalled client ends the wait. */
  ghost predicate FillsRight(c: Config, s: Run, now: real, fillAt: real, frames: Trace, t: Run) {
    if |frames| == 0 then t == s.(place := Closed, slot := Slot(s.slot.frame, true))
    else if s.slot.frame.None? then
      t == s.(place := Filling(frames[1..]), slot := Slot(Some(frames[0]), s.slot.closed),
              stallDue := fillAt + c.timeouts.stall, since := s.since.(filled := fillAt))
    else if Stalled(c, s, now) then t == s.(place := Stopping(CloseSlot), cut := true)
    else t == s
  }

  lemma TheSupervisorMovesRight(c: Config, s: Run, step: Step, t: Run)
    requires Enabled(s, step) && s.wire.stream.runId.Some? && Timed(c, s) && PlaceFits(s) && t == Next(c, s, step)
    ensures match step
            case Start(startedAt) =>
              t == s.(place := Driving, stepWanted := true, idleDue := At(startedAt + c.timeouts.idle),
                      since := s.since.(asked := startedAt))
            case PutDown(now, fillAt, beatAt) => PutsDownRight(c, s, now, fillAt, beatAt, s.place.frame, t)
            case Check(now, since) => ChecksRight(c, s, now, since, t)
            case Resume(raises) => ResumesRight(s, raises, s.place.next, t)
            case FillNext(now, fillAt) => FillsRight(c, s, now, fillAt, s.place.frames, t)
            case Interrupt => t == s.(place := Stopping(CloseSlot), cut := true, reap := if Live(s.place) then Asked else s.reap)
            case LeaveUnstarted => t == s.(place := NeverRan, cut := true, reap := Asked)
            case _ => true
  {
    hide Looked, Yielded, Collected, Reaped, RecordEnded;
    match step
    case Resume(_) =>
      if s.place.next.FillLast? && s.place.next.pending.Some? && s.wire.terminal.Some? {
        assert OneOrNone(s.place.next.pending) + OneOrNone(s.wire.terminal) == [s.place.next.pending.value, s.wire.terminal.value];
      } else if s.wire.terminal.Some? {
        assert [] + OneOrNone(s.wire.terminal) == [s.wire.terminal.value];
      }
    case _ =>
  }

  /** The pump asks for one step when it is wanted, and publishes its outcome; an error or a stop ends it, after the
      close of the runner's events, and every loss it meets is collected. */
  lemma ThePumpMovesRight(c: Config, s: Run, step: Step, t: Run)
    requires Enabled(s, step) && s.wire.stream.runId.Some? && NoDoubles(s.losses) && t == Next(c, s, step)
    requires step.TakeStep? || step.Yield? || step.Break? || step.EndPump? || step.StartReap? || step.ClientTakes?
    ensures match step
            case TakeStep => t == s.(stepWanted := false, pump := Stepping)
            case Yield(outcome, met) =>
              var stopping := s.reap == AwaitsPump || s.reap == Finished;
              && t == s.(pump := if stopping then Closing else AwaitsStep, losses := t.losses,
                         outcome := if outcome.RunnerRaised? && stopping then s.outcome else Some(outcome))
              && (if outcome.RunnerRaised? then Collects(s.losses, met, t.losses) else t.losses == s.losses)
            case Break(met) => t == s.(pump := Closing, losses := t.losses) && Collects(s.losses, met, t.losses)
            case EndPump(met) => t == s.(pump := PumpDone, losses := t.losses) && Collects(s.losses, met, t.losses)
            case StartReap => t == s.(reap := AwaitsPump)
            case ClientTakes =>
              match s.slot.frame
              case Some(frame) => t == s.(taken := s.taken + [frame], slot := Slot(None, s.slot.closed))
              case None => t == s.(clientDone := true)
  {
    hide Looked, Delivered, Checked, Resumed, Filled, Reaped, Collected, NoDoubles, Collects;
    if step.Yield? || step.Break? || step.EndPump? {
      CollectedKeeps(s, step.met);
      CollectedInOrder(s, step.met);
    }
  }

  /** What was met is collected after what was there, once each and in the order it was met first. */
  ghost predicate Collects(before: seq<Group>, met: seq<Group>, after: seq<Group>) {
    && before <= after && NoDoubles(after)
    && (forall g :: g in after <==> g in before || g in met)
    && forall i, j :: |before| <= i < j < |after| ==> MetBefore(met, after[i], after[j])
  }

  /** Some `g` was met before every `later`. */
  ghost predicate MetBefore(met: seq<Group>, g: Group, later: Group) {
    exists m :: 0 <= m < |met| && met[m] == g && later !in met[..m + 1]
  }

  lemma {:induction false} CollectedInOrder(s: Run, met: seq<Group>)
    requires NoDoubles(s.losses)
    ensures Collects(s.losses, met, Collected(s, met).losses)
    decreases |met|
  {
    CollectedKeeps(s, met);
    if met != [] {
      var t := if met[0] in s.losses then s else s.(losses := s.losses + [met[0]]);
      CollectedKeeps(s, [met[0]]);
      assert [met[0]][1..] == [];
      var after := Collected(t, met[1..]).losses;
      CollectedInOrder(t, met[1..]);
      hide Collected, NoDoubles;
      CollectingOneFirst(s.losses, met, t.losses, after);
    }
  }

  lemma CollectingOneFirst(before: seq<Group>, met: seq<Group>, one: seq<Group>, after: seq<Group>)
    requires met != [] && NoDoubles(after)
    requires one == if met[0] in before then before else before + [met[0]]
    requires Collects(one, met[1..], after)
    ensures Collects(before, met, after)
  {
    assert met == [met[0]] + met[1..];
    forall i, j | |before| <= i < j < |after| ensures MetBefore(met, after[i], after[j]) {
      assert after[j] != met[0] by {
        assert met[0] in one;
        var k :| 0 <= k < |one| && one[k] == met[0];
        assert after[k] == met[0] && k < j;
      }
      if i < |one| {
        assert after[i] == met[0] && after[j] !in met[..1];
      } else {
        assert MetBefore(met[1..], after[i], after[j]);
        var m :| 0 <= m < |met[1..]| && met[1..][m] == after[i] && after[j] !in met[1..][..m + 1];
        assert met[m + 1] == after[i] && met[..m + 2] == [met[0]] + met[1..][..m + 1];
      }
    }
  }

  // ---------------------------------------------------------------- over every run

  lemma WhatHolds(c: Config, s: Run, steps: seq<Step>)
    requires Begins(c, s) && Possible(c, s, steps)
    ensures var t := After(c, s, steps);
            && Inv(c, t) && Timed(c, t) && RecordKept(c, t) && PlaceFits(t) && OneStepAtATime(t) && NoDoubles(t.losses)
            && t.wire.stream.runId.Some?
  {
    BeginningKeeps(c, s);
    BeginsOnTime(c, s);
    RunsKeepTheInvariant(c, s, steps);
    RunsKeepTheTimes(c, s, steps);
    RunIsKnown(c, After(c, s, steps));
  }

  lemma AnOutcomeEndsNoRunForItsTime(w: Writer, t: Trace, outcome: RunnerOutcome, encode: Encoder)
    requires Wrote(w, t, encode) && w.decided.None? && t != []
    ensures var d := FrameFor(w, outcome, encode).0.decided;
            d.Some? && d.value.Failure? ==>
              !d.value.code.IdleTimeout? && (d.value.code.LimitExceeded? ==> d.value.message != LIMIT_EXCEEDED_MESSAGE)
  {
    hide Wrote, FrameFor, Says, Hinders;
    WhatIsNotSentDecidesTheEnd(w, t, outcome, encode);
    if outcome.RunnerYielded? && !HasNothingToSay(outcome.event) && !IsInvalid(outcome.event)
       && !outcome.event.OtherEvent? && !outcome.event.FinalEvent? {
      EveryEventIsOneOfFour(w.effects, outcome.event);
      var body :| Says(w.effects, outcome.event, body);
      ItSaysNoRunStarted(w.effects, outcome.event, body);
      SomethingHinders(w, t, Event(w.runId, |t|, body), encode);
      var h :| Hinders(w, t, Event(w.runId, |t|, body), encode, h);
      AnEventGoesOutOrDecidesItsFailure(w, t, outcome.event, body, encode, h);
      TheMessagesDiffer();
    }
  }

  lemma ItSaysNoRunStarted(effects: map<string, ToolEffect>, event: TurnEvent, body: Body)
    requires Says(effects, event, body)
    ensures !body.RunStarted?
  {
  }

  lemma TheMessagesDiffer()
    ensures LIMIT_EXCEEDED_MESSAGE != TOO_MANY_TOOL_CALLS_MESSAGE && LIMIT_EXCEEDED_MESSAGE != TOO_MUCH_DATA_MESSAGE
  {
    assert LIMIT_EXCEEDED_MESSAGE[8] == 'r' && TOO_MANY_TOOL_CALLS_MESSAGE[8] == 'm' && TOO_MUCH_DATA_MESSAGE[8] == 's';
  }

  /** In every interleaving a look ends the run for silence, or for its maximum, exactly when that timeout has passed in
      full, no outcome is ready and nothing that comes before it has come. */
  lemma ARunEndsForItsTimeExactlyWhenItHasCome(c: Config, s: Run, steps: seq<Step>, now: real, fillAt: real, beatAt: real, t: Run, u: Run)
    requires Begins(c, s) && Possible(c, s, steps) && t == After(c, s, steps)
    requires Enabled(t, Look(now, fillAt, beatAt)) && t.wire.stream.runId.Some? && u == Next(c, t, Look(now, fillAt, beatAt))
    ensures LooksRight(c, t, now, fillAt, beatAt, u)
    ensures u.wire.decided == Some(Failure(IdleTimeout, IDLE_TIMEOUT_MESSAGE)) <==>
              !Stalled(c, t, now) && t.outcome.None? && !AtItsMaximum(c, t, now) && Silent(c, t, now)
    ensures u.wire.decided == Some(Failure(LimitExceeded, LIMIT_EXCEEDED_MESSAGE)) <==>
              !Stalled(c, t, now) && t.outcome.None? && AtItsMaximum(c, t, now)
    ensures t.outcome.None? && u.wire.decided.Some? ==>
              u.wire.decided.value.Failure? && (u.wire.decided.value.code.IdleTimeout? || u.wire.decided.value.code.LimitExceeded?)
  {
    WhatHolds(c, s, steps);
    hide Begins, Possible, After, Next, Inv, Timed, OneStepAtATime, FrameFor;
    LookingIsRight(c, t, now, fillAt, beatAt, u);
    if t.outcome.Some? {
      hide Wrote;
      AnOutcomeEndsNoRunForItsTime(t.wire, t.sent, t.outcome.value, c.encode);
    }
  }
}
