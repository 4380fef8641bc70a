/** What a supervised run says and how it is recorded, over every interleaving: what goes out is what the runner
    yielded, in its order and with its content, and the record ends as was decided. */
module SupervisedContent {
  import opened Wire
  import opened RunStreams
  import opened WireRuns
  import opened RunEventFrames
  import opened Supervision
  import opened SupervisionProperties
  import opened SupervisionEndings

  // ---------------------------------------------------------------- what goes out

  /** The events the runner yielded, in order. */
  ghost function Yields(steps: seq<Step>): seq<TurnEvent> {
    if steps == [] then [] else YieldOf(steps[0]) + Yields(steps[1..])
  }

  ghost function YieldOf(step: Step): seq<TurnEvent> {
    if step.Yield? && step.outcome.RunnerYielded? then [step.outcome.event] else []
  }

  /** What a trace says on behalf of the runner, apart from its end. */
  ghost function RunnerBodies(t: Trace): seq<Body> {
    if t == [] then []
    else
      var body := t[|t| - 1].body;
      RunnerBodies(t[..|t| - 1]) + if body.AssistantText? || body.ToolCall? || body.ToolResult? then [body] else []
  }

  /** The bodies say the events one by one; only an event with nothing to say has none. */
  ghost predicate SaysAll(effects: map<string, ToolEffect>, events: seq<TurnEvent>, bodies: seq<Body>)
    decreases |events|
  {
    if events == [] then bodies == []
    else
      var before, event := events[..|events| - 1], events[|events| - 1];
      if HasNothingToSay(event) then SaysAll(effects, before, bodies)
      else bodies != [] && Says(effects, event, bodies[|bodies| - 1]) && !event.FinalEvent?
           && SaysAll(effects, before, bodies[..|bodies| - 1])
  }

  /** Of what the runner yielded the first `n` events went out, all of them while the run goes on but the one that
      waits; the final answer, if it was decided, is the next one. */
  ghost predicate Conveys(s: Run, events: seq<TurnEvent>, n: nat) {
    && n <= |events| && SaysAll(s.wire.effects, events[..n], RunnerBodies(s.sent))
    && (Live(s.place) ==>
         if s.outcome.Some? && s.outcome.value.RunnerYielded?
         then n + 1 == |events| && events[n] == s.outcome.value.event else n == |events|)
    && (s.wire.decided.Some? && s.wire.decided.value.Success? ==>
         n < |events| && events[n].FinalEvent? && s.wire.decided.value.event.body == Succeeded(events[n].answer))
  }

  lemma OneMoreBody(t: Trace, e: RunEvent)
    ensures RunnerBodies(t + [e]) ==
            if e.body.AssistantText? || e.body.ToolCall? || e.body.ToolResult? then RunnerBodies(t) + [e.body] else RunnerBodies(t)
  {
    assert (t + [e])[..|t|] == t;
    assert RunnerBodies(t) + [] == RunnerBodies(t);
  }

  lemma OneMoreEvent(effects: map<string, ToolEffect>, events: seq<TurnEvent>, event: TurnEvent, bodies: seq<Body>)
    requires SaysAll(effects, events, bodies)
    ensures HasNothingToSay(event) ==> SaysAll(effects, events + [event], bodies)
    ensures forall body :: !event.FinalEvent? && Says(effects, event, body) ==> SaysAll(effects, events + [event], bodies + [body])
  {
    assert (events + [event])[..|events|] == events;
    forall body | !event.FinalEvent? && Says(effects, event, body) ensures SaysAll(effects, events + [event], bodies + [body]) {
      assert (bodies + [body])[..|bodies|] == bodies;
    }
  }

  /** A step that says nothing for the runner, publishes no outcome and decides no success. */
  ghost predicate SaysNothing(s: Run, t: Run) {
    && t.wire.effects == s.wire.effects && RunnerBodies(t.sent) == RunnerBodies(s.sent)
    && (Live(t.place) ==> Live(s.place) && t.outcome == s.outcome)
    && (t.wire.decided == s.wire.decided || (t.wire.decided.Some? && t.wire.decided.value.Failure?))
  }

  lemma SayingNothingConveys(s: Run, t: Run, events: seq<TurnEvent>, n: nat)
    requires Conveys(s, events, n) && SaysNothing(s, t)
    ensures Conveys(t, events, n)
  {
  }

  lemma AYieldIsNext(c: Config, s: Run, step: Step, t: Run, events: seq<TurnEvent>, n: nat)
    requires Enabled(s, step) && step.Yield? && s.wire.stream.runId.Some? && NoDoubles(s.losses) && t == Next(c, s, step)
    requires PlaceFits(s) && OneStepAtATime(s) && Conveys(s, events, n)
    ensures Conveys(t, events + YieldOf(step), n)
  {
    hide Next, SaysAll, RunnerBodies, PlaceFits, NoDoubles, Collects;
    ThePumpMovesRight(c, s, step, t);
    var more := events + YieldOf(step);
    assert more[..n] == events[..n];
    assert Live(s.place) ==> !Stopped(s) by { LiveIsNotStopped(s); }
  }

  lemma LiveIsNotStopped(s: Run)
    requires PlaceFits(s)
    ensures Live(s.place) ==> s.reap.NotAsked?
  {
  }

  /** The outcome that waits is handled: its frame says it, or it has nothing to say, or it ends the run. */
  lemma HandlingConveys(c: Config, s: Run, t: Run, events: seq<TurnEvent>, n: nat)
    requires RecordKept(c, s) && PlaceFits(s) && s.place.Driving? && s.outcome.Some? && HandlesIt(c, s, s.outcome.value, t)
    requires Conveys(s, events, n)
    ensures t.wire.decided.Some? ==> Conveys(t, events, n)
    ensures t.wire.decided.None? ==>
              if s.outcome.value.RunnerYielded? then n < |events| && Conveys(t, events, n + 1) else Conveys(t, events, n)
  {
    hide FrameFor, RunnerBodies, Wrote, SaysAll, Says, Hinders, Ended;
    WhatIsNotSentDecidesTheEnd(s.wire, s.sent, s.outcome.value, c.encode);
    if s.outcome.value.RunnerYielded? {
      var event := s.outcome.value.event;
      assert events[..n + 1] == events[..n] + [event];
      OneMoreEvent(s.wire.effects, events[..n], event, RunnerBodies(s.sent));
      if !HasNothingToSay(event) && !IsInvalid(event) && !event.OtherEvent? && !event.FinalEvent? {
        SentConveys(c, s, t, event);
      }
    }
  }

  lemma SentConveys(c: Config, s: Run, t: Run, event: TurnEvent)
    requires Wrote(s.wire, s.sent, c.encode) && s.sent != [] && s.wire.decided.None? && s.outcome == Some(RunnerYielded(event))
    requires !HasNothingToSay(event) && !IsInvalid(event) && !event.OtherEvent? && !event.FinalEvent?
    requires HandlesIt(c, s, RunnerYielded(event), t)
    ensures t.wire.effects == s.wire.effects
    ensures t.wire.decided.Some? ==> t.wire.decided.value.Failure? && t.sent == s.sent
    ensures t.wire.decided.None? ==>
              exists body :: Says(s.wire.effects, event, body) && RunnerBodies(t.sent) == RunnerBodies(s.sent) + [body]
  {
    hide FrameFor, RunnerBodies, Wrote, Hinders, PromisesOf, BrokenRule, KindText, TypeText;
    EveryEventIsOneOfFour(s.wire.effects, event);
    var body :| Says(s.wire.effects, event, body);
    var e: RunEvent := Event(s.wire.runId, |s.sent|, body);
    SomethingHinders(s.wire, s.sent, e, c.encode);
    var h :| Hinders(s.wire, s.sent, e, c.encode, h);
    AnEventGoesOutOrDecidesItsFailure(s.wire, s.sent, event, body, c.encode, h);
    OneMoreBody(s.sent, e);
  }

  lemma LookingConveys(c: Config, s: Run, step: Step, t: Run, events: seq<TurnEvent>, n: nat)
    requires Enabled(s, step) && step.Look? && s.wire.stream.runId.Some? && t == Next(c, s, step)
    requires RecordKept(c, s) && PlaceFits(s) && OneStepAtATime(s) && Timed(c, s) && Conveys(s, events, n)
    ensures Conveys(t, events, n) || (n < |events| && Conveys(t, events, n + 1))
  {
    hide Next, RecordKept, PlaceFits, HandlesIt, BeatsRight, Conveys, OneStepAtATime, Timed;
    LookingIsRight(c, s, step.now, step.fillAt, step.beatAt, t);
    if !Stalled(c, s, step.now) && s.outcome.Some? {
      HandlingConveys(c, s, t, events, n);
    } else {
      assert SaysNothing(s, t) by {
        if BeatsRight(c, s, step.fillAt, step.beatAt, t) {
          BeatingSaysNothing(c, s, step.fillAt, step.beatAt, t);
        }
      }
      SayingNothingConveys(s, t, events, n);
    }
  }

  lemma BeatingSaysNothing(c: Config, s: Run, fillAt: real, beatAt: real, t: Run)
    requires BeatsRight(c, s, fillAt, beatAt, t) && s.place.Driving?
    ensures SaysNothing(s, t)
  {
    hide RunnerBodies, PromisesOf;
    OneMoreBody(s.sent, Event(s.wire.runId, |s.sent|, Heartbeat));
  }

  lemma ReapingConveys(c: Config, s: Run, t: Run, events: seq<TurnEvent>, n: nat)
    requires Enabled(s, FinishReap) && s.wire.stream.runId.Some? && t == Next(c, s, FinishReap)
    requires RecordKept(c, s) && PlaceFits(s) && Conveys(s, events, n)
    ensures Conveys(t, events, n)
  {
    hide Commit, Conveys, RunnerBodies, Wrote, RecordEnding, Accepted;
    CommittingKeepsTheDecision(s.wire, s.losses != [], c.encode);
    CommittingKeepsTheEffects(s.wire, s.losses != [], c.encode);
    if s.wire.decided.Some? {
      CommitKeeps(s.wire, s.sent, s.losses != [], c.encode);
    } else {
      CommittingNothing(s.wire, s.losses != [], c.encode);
    }
    if t.wire.terminal.Some? {
      OneMoreBody(s.sent, t.wire.terminal.value);
    }
    assert s.sent + [] == s.sent;
    SayingNothingConveys(s, t, events, n);
  }

  lemma CommittingKeepsTheEffects(w: Writer, lost: bool, encode: Encoder)
    ensures Commit(w, lost, encode).0.effects == w.effects
  {
    hide BrokenRule, Recorded, FailureOf;
  }

  lemma CommittingNothing(w: Writer, lost: bool, encode: Encoder)
    requires w.decided.None?
    ensures Commit(w, lost, encode) == (w, true)
  {
  }

  lemma OthersSayNothing(c: Config, s: Run, step: Step, t: Run)
    requires Enabled(s, step) && s.wire.stream.runId.Some? && t == Next(c, s, step)
    requires !step.Look? && !step.FinishReap? && !step.Yield?
    requires PlaceFits(s) && Timed(c, s) && NoDoubles(s.losses)
    ensures SaysNothing(s, t)
  {
    hide Next, RunnerBodies, PlaceFits, NoDoubles, Collects, Timed, Enabled;
    if step.TakeStep? || step.Break? || step.EndPump? || step.StartReap? || step.ClientTakes? {
      ThePumpMovesRight(c, s, step, t);
    } else {
      TheSupervisorSaysNothing(c, s, step, t);
    }
  }

  lemma TheSupervisorSaysNothing(c: Config, s: Run, step: Step, t: Run)
    requires Enabled(s, step) && s.wire.stream.runId.Some? && t == Next(c, s, step)
    requires step.Start? || step.PutDown? || step.Check? || step.Resume? || step.FillNext? || step.Interrupt? || step.LeaveUnstarted?
    requires PlaceFits(s) && Timed(c, s)
    ensures SaysNothing(s, t)
  {
    hide Next, RunnerBodies, PlaceFits, Timed, ResumesRight, FillsRight, PutsDownRight, ChecksRight;
    TheSupervisorMovesRight(c, s, step, t);
    match step
    case PutDown(now, fillAt, beatAt) => PuttingDownSaysNothing(c, s, now, fillAt, beatAt, s.place.frame, t);
    case Check(now, since) => CheckingSaysNothing(c, s, now, since, t);
    case Resume(raises) => ResumingSaysNothing(s, raises, s.place.next, t);
    case FillNext(now, fillAt) => FillingSaysNothing(c, s, now, fillAt, s.place.frames, t);
    case _ =>
  }

  lemma PuttingDownSaysNothing(c: Config, s: Run, now: real, fillAt: real, beatAt: real, frame: RunEvent, t: Run)
    requires PutsDownRight(c, s, now, fillAt, beatAt, frame, t) && s.place.Delivering?
    ensures SaysNothing(s, t)
  {
  }

  lemma CheckingSaysNothing(c: Config, s: Run, now: real, since: real, t: Run)
    requires ChecksRight(c, s, now, since, t) && s.place.Checking?
    ensures SaysNothing(s, t)
  {
  }

  lemma ResumingSaysNothing(s: Run, raises: bool, next: Then, t: Run)
    requires ResumesRight(s, raises, next, t)
    ensures SaysNothing(s, t)
  {
  }

  lemma FillingSaysNothing(c: Config, s: Run, now: real, fillAt: real, frames: Trace, t: Run)
    requires FillsRight(c, s, now, fillAt, frames, t) && s.place.Filling?
    ensures SaysNothing(s, t)
  {
  }

  lemma EveryStepConveys(c: Config, s: Run, step: Step, t: Run, events: seq<TurnEvent>, n: nat)
    requires Enabled(s, step) && s.wire.stream.runId.Some? && t == Next(c, s, step)
    requires Inv(c, s) && Timed(c, s) && Conveys(s, events, n)
    ensures exists m: nat :: Conveys(t, events + YieldOf(step), m)
  {
    hide Next, Conveys, RecordKept, PlaceFits, OneStepAtATime, FramesKept, NoDoubles, Timed;
    assert events + [] == events && (!step.Yield? ==> YieldOf(step) == []);
    match step
    case Look(_, _, _) => LookingConveys(c, s, step, t, events, n);
    case Yield(_, _) => AYieldIsNext(c, s, step, t, events, n);
    case FinishReap => ReapingConveys(c, s, t, events, n);
    case _ =>
      OthersSayNothing(c, s, step, t);
      SayingNothingConveys(s, t, events, n);
  }

  /** So it is for some number of events. */
  ghost predicate Conveyed(s: Run, events: seq<TurnEvent>) {
    exists n: nat :: Conveys(s, events, n)
  }

  lemma AStepHolds(c: Config, s: Run, step: Step, t: Run, events: seq<TurnEvent>)
    requires Enabled(s, step) && s.wire.stream.runId.Some? && t == Next(c, s, step)
    requires Inv(c, s) && Timed(c, s) && Conveyed(s, events)
    ensures Inv(c, t) && Timed(c, t) && Conveyed(t, events + YieldOf(step))
  {
    hide Next, Enabled, Conveys, Timed, RecordKept, PlaceFits, OneStepAtATime, FramesKept, NoDoubles;
    var n: nat :| Conveys(s, events, n);
    EveryStepConveys(c, s, step, t, events, n);
    EveryStepKeepsTheInvariant(c, s, step);
    EveryStepKeepsTheTimes(c, s, step);
  }

  lemma {:induction false} RunsConvey(c: Config, s: Run, steps: seq<Step>, events: seq<TurnEvent>)
    requires Possible(c, s, steps) && Inv(c, s) && Timed(c, s) && Conveyed(s, events)
    ensures Conveyed(After(c, s, steps), events + Yields(steps))
    decreases |steps|
  {
    hide Inv, Next, Enabled, Timed, Conveyed;
    if steps == [] {
      assert events + Yields(steps) == events;
    } else {
      var t := Next(c, s, steps[0]);
      AStepHolds(c, s, steps[0], t, events);
      RunsConvey(c, t, steps[1..], events + YieldOf(steps[0]));
      assert events + YieldOf(steps[0]) + Yields(steps[1..]) == events + Yields(steps);
    }
  }

  lemma BeginningConveys(c: Config, s: Run)
    requires Begins(c, s)
    ensures Conveys(s, [], 0)
  {
    var started := s.sent[0];
    assert s.sent == [started];
    assert [] + [started] == [started];
    OneMoreBody([], started);
  }

  /** Whatever the interleaving: what a run says is what its runner yielded, event by event and in order, each with its
      own content; while the run goes on at most the outcome that waits is missing, and a success that is decided is the
      answer of the next event. */
  lemma TheRunSaysWhatTheRunnerYielded(c: Config, s: Run, steps: seq<Step>)
    requires Begins(c, s) && Possible(c, s, steps)
    ensures Conveyed(After(c, s, steps), Yields(steps))
  {
    BeginningConveys(c, s);
    BeginningKeeps(c, s);
    BeginsOnTime(c, s);
    hide Begins, Inv, Timed, Conveys, After, Possible;
    RunsConvey(c, s, steps, []);
    assert [] + Yields(steps) == Yields(steps);
  }

  lemma {:induction false} CallsHaveTheirEffects(effects: map<string, ToolEffect>, events: seq<TurnEvent>, t: Trace)
    requires SaysAll(effects, events, RunnerBodies(t))
    ensures forall i :: 0 <= i < |t| && t[i].body.ToolCall? ==> HasEffect(effects, t[i].body.name, t[i].body.effect)
  {
    forall i | 0 <= i < |t| && t[i].body.ToolCall? ensures HasEffect(effects, t[i].body.name, t[i].body.effect) {
      BodiesAreThere(t, i);
      BodiesAreSaid(effects, events, RunnerBodies(t), t[i].body);
    }
  }

  lemma {:induction false} BodiesAreThere(t: Trace, i: nat)
    requires i < |t| && t[i].body.ToolCall?
    ensures t[i].body in RunnerBodies(t)
  {
    if i < |t| - 1 {
      BodiesAreThere(t[..|t| - 1], i);
    }
  }

  lemma {:induction false} BodiesAreSaid(effects: map<string, ToolEffect>, events: seq<TurnEvent>, bodies: seq<Body>, body: Body)
    requires SaysAll(effects, events, bodies) && body in bodies
    ensures exists event :: event in events && Says(effects, event, body)
    decreases |events|
  {
    hide Says;
    var before, event := events[..|events| - 1], events[|events| - 1];
    if HasNothingToSay(event) {
      BodiesAreSaid(effects, before, bodies, body);
    } else if body in bodies[..|bodies| - 1] {
      BodiesAreSaid(effects, before, bodies[..|bodies| - 1], body);
    }
  }

  // ---------------------------------------------------------------- how it is recorded

  /** What the record of a stopped run ends with, after the trace `t` that was sent before the terminal. */
  ghost predicate RecordFits(w: Writer, t: Trace, lost: bool, over: RunEvent) {
    && over.runId == w.runId && over.seqNo == |t|
    && (w.terminal.Some? ==> over == w.terminal.value)
    && (lost ==> over.body == Failed(ProviderError, RUNNER_FAILED_MESSAGE))
    && (!lost ==>
         match w.decided
         case None => over.body == if MayHaveChangedState(t) then Failed(Interrupted, INTERRUPTED_MESSAGE) else Cancelled
         case Some(Failure(code, message)) =>
           over.body == if w.terminal.Some? then Failed(code, message) else Failed(ProviderError, RUNNER_FAILED_MESSAGE)
         case Some(Success(e)) =>
           || (w.terminal.Some? && over == e)
           || (w.terminal.Some? && over.body == Failed(ProviderError, "The provider's succeeded cannot be sent."))
           || (w.terminal.Some? && over.body == Failed(LimitExceeded, TOO_MUCH_DATA_MESSAGE))
           || (w.terminal.None? && over.body == Failed(ProviderError, RUNNER_FAILED_MESSAGE)))
  }

  lemma ReapingRecordsRightly(c: Config, s: Run, t: Run)
    requires Enabled(s, FinishReap) && s.wire.stream.runId.Some? && t == Next(c, s, FinishReap)
    requires RecordKept(c, s) && PlaceFits(s)
    ensures t.reap.Finished? && t.losses == s.losses && t.over.Some?
    ensures t.wire.decided == s.wire.decided && WithoutLast(t) == s.sent
    ensures RecordFits(t.wire, s.sent, s.losses != [], t.over.value)
  {
    hide Commit, Wrote, RecordEnding, Accepted, Ended, RecordFits;
    CommittingRecords(s.wire, s.sent, s.losses != [], c.encode);
    CommittingKeepsTheDecision(s.wire, s.losses != [], c.encode);
    assert t.wire.terminal.Some? ==> (s.sent + [t.wire.terminal.value])[..|s.sent|] == s.sent;
    assert s.sent + [] == s.sent;
  }

  lemma CommittingRecords(w: Writer, t: Trace, lost: bool, encode: Encoder)
    requires Wrote(w, t, encode) && t != [] && !Ended(t) && w.terminal.None? && OwnDecision(w)
    ensures var v := Commit(w, lost, encode).0;
            v.stream.runId.Some? && RecordFits(v, t, lost, RecordEnding(v, lost))
  {
    hide Send, FailureOf, BytesOf, CallsOf, Accepted, PromisesOf, Ended, TypeText, KindText, CommitFailure;
    PromisesOfWritten(w, t, encode);
    CommittingKeepsTheRun(w, lost, encode);
    if w.decided.None? {
      if !lost {
        ACutOffRunIsRecorded(w, t, encode);
      }
    } else {
      CommitKeeps(w, t, lost, encode);
      var (v, ok) := Commit(w, lost, encode);
      if !ok {
        AnUncommittedRunIsTheProvidersFailure(v, t, lost, encode);
      } else if !lost && w.decided.value.Success? && v.terminal != Some(w.decided.value.event) {
        RefusedSuccessesFit(w, t, encode);
      }
    }
  }

  lemma RefusedSuccessesFit(w: Writer, t: Trace, encode: Encoder)
    requires Wrote(w, t, encode) && t != [] && !Ended(t) && w.terminal.None? && OwnDecision(w)
    requires w.decided.Some? && w.decided.value.Success?
    requires Commit(w, false, encode).0.terminal.Some? && Commit(w, false, encode).0.terminal != Some(w.decided.value.event)
    ensures var v := Commit(w, false, encode).0;
            v.terminal.value.body in {Failed(ProviderError, "The provider's succeeded cannot be sent."),
                                      Failed(LimitExceeded, TOO_MUCH_DATA_MESSAGE)}
            && v.terminal.value.runId == w.runId && v.terminal.value.seqNo == |t|
  {
    hide Commit, Wrote, Ended, Hinders, BrokenRule;
    var e := w.decided.value.event;
    SomethingHinders(w, t, e, encode);
    var h :| Hinders(w, t, e, encode, h);
    if h.NoHindrance? {
      UnhinderedFits(w, t, e, encode);
      DueSuccessCommits(w, t, encode);
    } else {
      var d := if h.NotWritable? then Failure(ProviderError, "The provider's " + TypeText(e.body) + " cannot be sent.")
               else Failure(LimitExceeded, TOO_MUCH_DATA_MESSAGE);
      TheSuccessIsDue(w, t, encode);
      HinderedSuccess(w, t, e, encode, h);
      AHinderedSuccessEndsInItsFailure(w, t, encode, h, d);
      assert "The provider's " + "succeeded" + " cannot be sent." == "The provider's succeeded cannot be sent.";
    }
  }

  lemma TheSuccessIsDue(w: Writer, t: Trace, encode: Encoder)
    requires Wrote(w, t, encode) && t != [] && SuccessIsDue(w) && w.decided.Some? && w.decided.value.Success?
    ensures w.decided.value.event.runId == t[0].runId && w.decided.value.event.seqNo == |t|
  {
  }

  lemma HinderedSuccess(w: Writer, t: Trace, e: RunEvent, encode: Encoder, h: Hindrance)
    requires Hinders(w, t, e, encode, h) && !h.NoHindrance? && e.body.Succeeded?
    requires t != [] && !Ended(t) && e.runId == t[0].runId && e.seqNo == |t|
    ensures h.NotWritable? || h.TooMuchData?
  {
    TheyKeepTheRules(w, t, e);
  }

  lemma UnhinderedFits(w: Writer, t: Trace, e: RunEvent, encode: Encoder)
    requires Hinders(w, t, e, encode, NoHindrance)
    ensures FitsBudget(w, e, encode)
  {
  }

  lemma DueSuccessCommits(w: Writer, t: Trace, encode: Encoder)
    requires Wrote(w, t, encode) && t != [] && !Ended(t) && w.terminal.None? && OwnDecision(w)
    requires w.decided.Some? && w.decided.value.Success? && FitsBudget(w, w.decided.value.event, encode)
    ensures Commit(w, false, encode).0.terminal == Some(w.decided.value.event)
  {
    hide Wrote, Send, FitsBudget, Ended;
    CommitKeeps(w, t, false, encode);
  }

  /** Once the record ended nothing of it changes. */
  lemma TheRecordStands(c: Config, s: Run, step: Step, t: Run)
    requires Enabled(s, step) && s.wire.stream.runId.Some? && t == Next(c, s, step)
    requires PlaceFits(s) && OneStepAtATime(s) && Timed(c, s) && NoDoubles(s.losses) && s.reap.Finished?
    ensures t.wire == s.wire && t.sent == s.sent && t.losses == s.losses && t.over == s.over && t.reap.Finished?
  {
    hide Next, NoDoubles, Collects, Timed;
    if step.TakeStep? || step.Yield? || step.Break? || step.EndPump? || step.StartReap? || step.ClientTakes? {
      ThePumpMovesRight(c, s, step, t);
    } else {
      TheSupervisorMovesRight(c, s, step, t);
    }
  }

  /** Once the runner was stopped, the record ends as the run was decided, lost or cut off. */
  ghost predicate RecordedRightly(s: Run) {
    s.reap.Finished? ==> s.over.Some? && RecordFits(s.wire, WithoutLast(s), s.losses != [], s.over.value)
  }

  lemma InvTells(c: Config, s: Run)
    requires Inv(c, s)
    ensures RecordKept(c, s) && PlaceFits(s) && OneStepAtATime(s) && NoDoubles(s.losses)
  {
  }

  lemma AStepRecords(c: Config, s: Run, step: Step, t: Run)
    requires Enabled(s, step) && s.wire.stream.runId.Some? && t == Next(c, s, step)
    requires Inv(c, s) && Timed(c, s) && RecordedRightly(s)
    ensures Inv(c, t) && Timed(c, t) && RecordedRightly(t)
  {
    hide Next, Timed, RecordKept, PlaceFits, OneStepAtATime, NoDoubles, RecordFits, Inv, Enabled;
    InvTells(c, s);
    EveryStepKeepsTheInvariant(c, s, step);
    EveryStepKeepsTheTimes(c, s, step);
    if step.FinishReap? {
      ReapingRecordsRightly(c, s, t);
    } else if s.reap.Finished? {
      TheRecordStands(c, s, step, t);
    } else {
      OnlyTheReapFinishes(c, s, step, t);
    }
  }

  lemma OnlyTheReapFinishes(c: Config, s: Run, step: Step, t: Run)
    requires Enabled(s, step) && s.wire.stream.runId.Some? && t == Next(c, s, step) && NoDoubles(s.losses)
    requires !step.FinishReap? && !s.reap.Finished? && PlaceFits(s) && Timed(c, s) && RecordKept(c, s) && OneStepAtATime(s)
    ensures !t.reap.Finished?
  {
    hide Next, NoDoubles, Collects, Timed, RecordKept, OneStepAtATime, HandlesIt, BeatsRight;
    if step.TakeStep? || step.Yield? || step.Break? || step.EndPump? || step.StartReap? || step.ClientTakes? {
      ThePumpMovesRight(c, s, step, t);
    } else if step.Look? {
      LookingIsRight(c, s, step.now, step.fillAt, step.beatAt, t);
      LookingFinishesNothing(c, s, step.now, step.fillAt, step.beatAt, t);
    } else {
      TheSupervisorMovesRight(c, s, step, t);
    }
  }

  lemma LookingFinishesNothing(c: Config, s: Run, now: real, fillAt: real, beatAt: real, t: Run)
    requires LooksRight(c, s, now, fillAt, beatAt, t) && s.place.Driving? && PlaceFits(s)
    ensures !t.reap.Finished?
  {
    hide FrameFor, PromisesOf;
  }

  lemma {:induction false} RunsRecord(c: Config, s: Run, steps: seq<Step>)
    requires Possible(c, s, steps) && Inv(c, s) && Timed(c, s) && RecordedRightly(s)
    ensures RecordedRightly(After(c, s, steps))
    decreases |steps|
  {
    hide Inv, Next, Enabled, Timed, RecordedRightly;
    if steps != [] {
      AStepRecords(c, s, steps[0], Next(c, s, steps[0]));
      RunsRecord(c, Next(c, s, steps[0]), steps[1..]);
    }
  }

  /** Whatever the interleaving: the record of a run ends with the failure that was decided, with the success that was
      decided or with why it could not be sent, with the provider's failure after a loss or a commit that failed, and
      otherwise as a run cut off: interrupted exactly when a call that may change state went out. */
  lemma TheRecordEndsAsDecided(c: Config, s: Run, steps: seq<Step>)
    requires Begins(c, s) && Possible(c, s, steps)
    ensures RecordedRightly(After(c, s, steps))
  {
    hide Begins, Inv, Timed, After, Possible, RecordedRightly;
    BeginningKeeps(c, s);
    BeginsOnTime(c, s);
    NothingIsRecordedYet(c, s);
    RunsRecord(c, s, steps);
  }

  lemma NothingIsRecordedYet(c: Config, s: Run)
    requires Begins(c, s)
    ensures RecordedRightly(s)
  {
  }

  /** A run cut off after its runner's call of a tool that the request does not list is recorded as interrupted. */
  lemma ARunCutOffAfterAnUnlistedCallIsInterrupted(c: Config, s: Run, steps: seq<Step>, t: Run, i: nat)
    requires Begins(c, s) && Possible(c, s, steps) && t == After(c, s, steps)
    requires t.over.Some? && t.wire.decided.None? && t.losses == []
    requires i < |t.sent| && t.sent[i].body.ToolCall? && t.sent[i].body.name !in t.wire.effects
    ensures t.over.value.body == Failed(Interrupted, INTERRUPTED_MESSAGE)
  {
    hide Begins, After, Possible, Inv, RecordedRightly, RecordKept, Timed, PlaceFits, OneStepAtATime, NoDoubles, Conveyed;
    WhatHolds(c, s, steps);
    TheRecordEndsAsDecided(c, s, steps);
    TheRunSaysWhatTheRunnerYielded(c, s, steps);
    TheRecordComesWithTheReap(c, t);
    UnlistedCallsMayChangeState(t, Yields(steps), i);
    CutOffRunsEnd(t);
  }

  lemma UnlistedCallsMayChangeState(s: Run, events: seq<TurnEvent>, i: nat)
    requires Conveyed(s, events) && i < |s.sent| && s.sent[i].body.ToolCall? && s.sent[i].body.name !in s.wire.effects
    requires s.wire.terminal.Some? ==> s.sent[|s.sent| - 1].body.Terminal()
    ensures MayHaveChangedState(WithoutLast(s))
  {
    hide SaysAll, RunnerBodies;
    var n: nat :| Conveys(s, events, n);
    CallsHaveTheirEffects(s.wire.effects, events[..n], s.sent);
    assert WithoutLast(s)[i] == s.sent[i] && SideEffectingCall(WithoutLast(s)[i]);
  }

  lemma CutOffRunsEnd(s: Run)
    requires RecordedRightly(s) && s.reap.Finished? && s.wire.decided.None? && s.losses == []
    ensures s.over.Some?
    ensures MayHaveChangedState(WithoutLast(s)) ==> s.over.value.body == Failed(Interrupted, INTERRUPTED_MESSAGE)
  {
    hide MayHaveChangedState;
  }

  lemma TheRecordComesWithTheReap(c: Config, s: Run)
    requires RecordKept(c, s)
    ensures s.over.Some? ==> s.reap.Finished?
    ensures s.wire.terminal.Some? ==> s.sent[|s.sent| - 1].body.Terminal()
  {
  }
}
