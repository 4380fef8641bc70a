/** What the frames of a run say (packages/service/src/agent_runtime_service/run_events.py): which core events go
    out, with what content, under which number, and what a refused one is recorded as. */
module RunEventFrames {
  import opened Wire
  import opened RunStreams
  import opened WireRuns

  // ---------------------------------------------------------------- what an event says

  /** Whether a tool the request lists is read-only; any other one may change state. */
  predicate HasEffect(effects: map<string, ToolEffect>, name: string, effect: ToolEffect) {
    effect.ReadOnly? <==> name in effects && effects[name].ReadOnly?
  }

  /** The body says what the core event says, and nothing else. */
  predicate Says(effects: map<string, ToolEffect>, event: TurnEvent, body: Body) {
    match event
    case TextEvent(text) => text != "" && body.AssistantText? && body.text == text
    case CallEvent(id, name, input, inputIsJson) =>
      && id != "" && inputIsJson
      && body.ToolCall? && body.callId == id && body.name == name && body.input == input && HasEffect(effects, name, body.effect)
    case ResultEvent(id, content, isError) =>
      id != "" && body.ToolResult? && body.resultId == id && body.content == content && body.isError == isError
    case FinalEvent(answer) => answer != "" && body.Succeeded? && body.answer == answer
    case OtherEvent => false
  }

  predicate HasNothingToSay(event: TurnEvent) {
    event.TextEvent? && event.text == ""
  }

  /** A result that says nothing of itself, a call or a result without an id, an input that is no JSON, no answer. */
  predicate IsInvalid(event: TurnEvent) {
    match event
    case TextEvent(_) => false
    case CallEvent(id, _, _, inputIsJson) => |id| == 0 || !inputIsJson
    case ResultEvent(id, _, _) => |id| == 0
    case FinalEvent(answer) => |answer| == 0
    case OtherEvent => false
  }

  /** Every core event has nothing to say, is invalid, is of a kind the service does not know, or says one body. */
  lemma EveryEventIsOneOfFour(effects: map<string, ToolEffect>, event: TurnEvent)
    ensures (exists body :: Says(effects, event, body)) <==> !HasNothingToSay(event) && !IsInvalid(event) && !event.OtherEvent?
    ensures forall a, b :: Says(effects, event, a) && Says(effects, event, b) ==> a == b
  {
    match event
    case TextEvent(text) => if text != "" { assert Says(effects, event, AssistantText(text)); }
    case CallEvent(id, name, input, inputIsJson) =>
      if id != "" && inputIsJson {
        assert Says(effects, event, ToolCall(id, name, input, if name in effects then effects[name] else SideEffecting));
      }
    case ResultEvent(id, content, isError) => if id != "" { assert Says(effects, event, ToolResult(id, content, isError)); }
    case FinalEvent(answer) => if answer != "" { assert Says(effects, event, Succeeded(answer)); }
    case OtherEvent =>
  }

  // ---------------------------------------------------------------- what becomes of it

  /** Why an event that says `body` cannot be sent as the next one after the trace `t`, in the order it is found. */
  datatype Hindrance = NotWritable | TooManyCalls | TooMuchData | BreaksTheRules | NoHindrance

  predicate Hinders(w: Writer, t: Trace, e: RunEvent, encode: Encoder, h: Hindrance) {
    var writable := encode(e).Some?;
    var callsLeft := e.body.ToolCall? ==> w.toolCalls < w.limits.maxToolCalls;
    var bytesLeft := encode(e).Some? ==> w.bytes + encode(e).value <= w.limits.maxBytes;
    match h
    case NotWritable => !writable
    case TooManyCalls => writable && !callsLeft
    case TooMuchData => writable && callsLeft && !bytesLeft
    case BreaksTheRules => writable && callsLeft && bytesLeft && !MayFollow(t, e)
    case NoHindrance => writable && callsLeft && bytesLeft && MayFollow(t, e)
  }

  /** What a hindrance of `e` decides; a broken rule is the one the run stream names for the trace. */
  predicate Decides(h: Hindrance, t: Trace, e: RunEvent, d: Option<Decision>) {
    match h
    case NotWritable => d == Some(Failure(ProviderError, "The provider's " + TypeText(e.body) + " cannot be sent."))
    case TooManyCalls => d == Some(Failure(LimitExceeded, TOO_MANY_TOOL_CALLS_MESSAGE))
    case TooMuchData => d == Some(Failure(LimitExceeded, TOO_MUCH_DATA_MESSAGE))
    case BreaksTheRules =>
      exists kind :: BrokenRule(PromisesOf(t), e) == Some(kind)
                     && d == Some(Failure(ProviderError, "The provider broke the run's stream rules: " + KindText(kind) + "."))
    case NoHindrance => d == None
  }

  /** What was written and counted: an event that breaks the rules was charged before it was refused. */
  predicate Counts(h: Hindrance, w: Writer, t: Trace, e: RunEvent, encode: Encoder, v: Writer) {
    && v.bytes == w.bytes + (if h.NoHindrance? || h.BreaksTheRules? then (if encode(e).Some? then encode(e).value else 0) else 0)
    && v.toolCalls == w.toolCalls + (if (h.NoHindrance? || h.BreaksTheRules?) && e.body.ToolCall? then 1 else 0)
    && v.seqNo == (if h.NoHindrance? then |t| + 1 else |t|)
    && v.stream == PromisesOf(if h.NoHindrance? then t + [e] else t)
  }

  predicate FromTheRunner(body: Body) {
    body.AssistantText? || body.ToolCall? || body.ToolResult? || body.Succeeded?
  }

  lemma SendingTells(w: Writer, t: Trace, e: RunEvent, encode: Encoder, h: Hindrance)
    requires Wrote(w, t, encode) && e.runId == w.runId && e.seqNo == |t| && FromTheRunner(e.body)
    requires Hinders(w, t, e, encode, h)
    ensures var (v, refusal) := Send(w, e, encode);
            && SameButSending(v, w) && Counts(h, w, t, e, encode, v)
            && (refusal.None? <==> h.NoHindrance?)
            && (refusal.Some? ==> Decides(h, t, e, Some(FailureOf(refusal.value))))
  {
    hide Accepted, BytesOf, CallsOf, MayFollow, BrokenRule, Recorded, TypeText, KindText, InRunLanguage, PromisesOf;
    AcceptedIsTheRunLanguage(t);
    AcceptsExactlyWhatMayFollow(t, e);
    PromisesOfMore(t, e);
  }

  lemma OnlyOneEventSaysIt(w: Writer, event: TurnEvent, body: Body)
    requires Says(w.effects, event, body)
    ensures Map(w, event) == WireEvent(Event(w.runId, w.seqNo, body)) && FromTheRunner(body)
  {
  }

  /** A core event other than the final one goes out as the event that says it, under the due number, and is charged;
      otherwise it decides the failure of the first hindrance, and the run's trace stays as it was. */
  lemma AnEventGoesOutOrDecidesItsFailure(w: Writer, t: Trace, event: TurnEvent, body: Body, encode: Encoder, h: Hindrance)
    requires Wrote(w, t, encode) && w.decided.None? && t != []
    requires Says(w.effects, event, body) && !event.FinalEvent?
    requires Hinders(w, t, Event(w.runId, |t|, body), encode, h)
    ensures var e := Event(w.runId, |t|, body);
            var (v, frame) := FrameFor(w, RunnerYielded(event), encode);
            && SameButSending(v, w.(decided := v.decided)) && Counts(h, w, t, e, encode, v)
            && frame == (if h.NoHindrance? then Some(e) else None)
            && Decides(h, t, e, v.decided)
  {
    OnlyOneEventSaysIt(w, event, body);
    SendingTells(w, t, Event(w.runId, |t|, body), encode, h);
    hide Wrote, Send, FailureOf, Hinders, Map, Counts, PromisesOf;
  }

  /** What decides without a frame: the final event its success under the due number, an event with nothing to say
      nothing, any other one the failure of what is wrong with it; so does the end of the events or an error. */
  lemma WhatIsNotSentDecidesTheEnd(w: Writer, t: Trace, outcome: RunnerOutcome, encode: Encoder)
    requires Wrote(w, t, encode) && w.decided.None?
    ensures var (v, frame) := FrameFor(w, outcome, encode);
            match outcome
            case RunnerExhausted => frame.None? && v == w.(decided := Some(Failure(ProviderError, NO_ANSWER_MESSAGE)))
            case RunnerRaised => frame.None? && v == w.(decided := Some(Failure(ProviderError, RUNNER_FAILED_MESSAGE)))
            case RunnerYielded(event) =>
              && (HasNothingToSay(event) ==> frame.None? && v == w)
              && (IsInvalid(event) ==> frame.None? && v == w.(decided := Some(Failure(ProviderError, INVALID_EVENT_MESSAGE))))
              && (event.OtherEvent? ==> frame.None? && v == w.(decided := Some(Failure(ProviderError, UNMAPPABLE_EVENT_MESSAGE))))
              && (event.FinalEvent? && |event.answer| > 0 ==>
                   frame.None? && v == w.(decided := Some(Success(Event(w.runId, |t|, Succeeded(event.answer))))))
  {
    hide BytesOf, CallsOf, Accepted, PromisesOf, Send;
  }

  /** What a run that was cut off is recorded as: nothing was decided, nothing lost. */
  lemma ACutOffRunIsRecorded(w: Writer, t: Trace, encode: Encoder)
    requires Wrote(w, t, encode) && w.decided.None? && w.terminal.None? && t != []
    ensures w.stream.runId.Some?
    ensures RecordEnding(w, false) ==
            Event(w.runId, |t|, if MayHaveChangedState(t) then Failed(Interrupted, INTERRUPTED_MESSAGE) else Cancelled)
  {
    PromisesOfWritten(w, t, encode);
  }

  /** A call of a tool the request does not list went out, whatever went out after it: if the run is cut off then,
      it is recorded as interrupted. */
  lemma AnUnlistedCallIsInterrupted(w: Writer, t: Trace, event: TurnEvent, encode: Encoder, v: Writer, later: Trace)
    requires Wrote(w, t, encode) && w.decided.None? && t != []
    requires event.CallEvent? && event.name !in w.effects
    requires FrameFor(w, RunnerYielded(event), encode).1.Some?
    requires var frame := FrameFor(w, RunnerYielded(event), encode).1;
             Wrote(v, t + [frame.value] + later, encode) && v.decided.None? && v.terminal.None?
    ensures v.stream.runId.Some? && RecordEnding(v, false).body == Failed(Interrupted, INTERRUPTED_MESSAGE)
  {
    var frame := FrameFor(w, RunnerYielded(event), encode).1;
    var whole := t + [frame.value] + later;
    WhatIsNotSentDecidesTheEnd(w, t, RunnerYielded(event), encode);
    EveryEventIsOneOfFour(w.effects, event);
    var body :| Says(w.effects, event, body);
    assert exists h :: Hinders(w, t, Event(w.runId, |t|, body), encode, h) by {
      SomethingHinders(w, t, Event(w.runId, |t|, body), encode);
    }
    var h :| Hinders(w, t, Event(w.runId, |t|, body), encode, h);
    AnEventGoesOutOrDecidesItsFailure(w, t, event, body, encode, h);
    assert SideEffectingCall(whole[|t|]);
    hide FrameFor, Wrote;
    ACutOffRunIsRecorded(v, whole, encode);
  }

  lemma SomethingHinders(w: Writer, t: Trace, e: RunEvent, encode: Encoder)
    ensures exists h :: Hinders(w, t, e, encode, h)
  {
    hide MayFollow;
    assert Hinders(w, t, e, encode, NotWritable) || Hinders(w, t, e, encode, TooManyCalls)
        || Hinders(w, t, e, encode, TooMuchData) || Hinders(w, t, e, encode, BreaksTheRules)
        || Hinders(w, t, e, encode, NoHindrance);
  }

  /** The commit of a success that is hindered: it is never against the rules, nothing more is charged, and the
      terminal is the failure of what hinders it. */
  lemma AHinderedSuccessEndsInItsFailure(w: Writer, t: Trace, encode: Encoder, h: Hindrance, d: Decision)
    requires Wrote(w, t, encode) && t != [] && !Ended(t) && w.terminal.None?
    requires SuccessIsDue(w) && w.decided.Some? && w.decided.value.Success?
    requires Hinders(w, t, w.decided.value.event, encode, h) && !h.NoHindrance?
    requires Decides(h, t, w.decided.value.event, Some(d))
    ensures h.NotWritable? || h.TooMuchData?
    ensures var (v, ok) := Commit(w, false, encode);
            var failed := Event(w.runId, |t|, Failed(d.code, d.message));
            && d.Failure? && (ok <==> encode(failed).Some?)
            && v.terminal == (if ok then Some(failed) else None) && v.bytes == w.bytes
  {
    var e := w.decided.value.event;
    SendingTells(w, t, e, encode, h);
    TheyKeepTheRules(w, t, e);
    var (sent, refusal) := Send(w, e, encode);
    hide Send, BytesOf, CallsOf, Accepted, PromisesOf, Hinders, FailureOf;
    assert FailureOf(refusal.value) == d;
    FailureIsSent(sent, t, d, encode) by {
      SendingKeeps(w, t, e, encode);
      TheFailureIsOwn(d, h, t, e);
    }
    FailuresAreNotCharged(sent, Event(sent.runId, sent.seqNo, Failed(d.code, d.message)), encode);
  }

  lemma TheFailureIsOwn(d: Decision, h: Hindrance, t: Trace, e: RunEvent)
    requires Decides(h, t, e, Some(d)) && (h.NotWritable? || h.TooMuchData?)
    ensures OwnFailure(d)
  {
    assert |TypeText(e.body)| <= 20;
  }

  lemma FailuresAreNotCharged(w: Writer, e: RunEvent, encode: Encoder)
    requires e.body.Failed?
    ensures Send(w, e, encode).0.bytes == w.bytes
  {
    hide BrokenRule, Recorded;
  }

  lemma TheyKeepTheRules(w: Writer, t: Trace, e: RunEvent)
    requires t != [] && !Ended(t) && e.runId == t[0].runId && e.seqNo == |t|
    requires e.body.Succeeded? || e.body.Heartbeat?
    ensures MayFollow(t, e)
  {
  }

  lemma PromisesOfMore(t: Trace, e: RunEvent)
    ensures PromisesOf(t + [e]) == Recorded(PromisesOf(t), e)
  {
    assert (t + [e])[..|t|] == t;
  }

  lemma TheBeatIsAccepted(w: Writer, t: Trace, beat: RunEvent, encode: Encoder)
    requires Wrote(w, t, encode) && t != [] && !Ended(t)
    requires beat == Event(w.runId, |t|, Heartbeat)
    ensures BrokenRule(w.stream, beat).None? && w.seqNo == |t| && w.stream == PromisesOf(t)
  {
    AcceptedIsTheRunLanguage(t);
    TheyKeepTheRules(w, t, beat);
    hide BytesOf, CallsOf, BrokenRule, MayFollow, Ended;
    AcceptsExactlyWhatMayFollow(t, beat);
  }

  lemma SendingUncharged(w: Writer, beat: RunEvent, encode: Encoder)
    requires beat.body.Heartbeat? && BrokenRule(w.stream, beat).None?
    ensures Send(w, beat, encode) ==
            if encode(beat).None? then (w, Some(CannotBeWritten(beat.body)))
            else (w.(seqNo := w.seqNo + 1, stream := Recorded(w.stream, beat)), None)
  {
    hide BrokenRule, Recorded;
  }

  /** A heartbeat goes out under the due number whenever it can be written, and counts against no budget. */
  lemma AHeartbeatGoesOutUncharged(w: Writer, t: Trace, beat: RunEvent, encode: Encoder)
    requires Wrote(w, t, encode) && t != [] && !Ended(t)
    requires beat == Event(w.runId, |t|, Heartbeat)
    ensures Due(w, Heartbeat) == beat
    ensures Send(w, beat, encode).1.None? <==> encode(beat).Some?
    ensures encode(beat).Some? ==> Send(w, beat, encode).0 == w.(seqNo := |t| + 1, stream := PromisesOf(t + [beat]))
    ensures encode(beat).None? ==> Send(w, beat, encode).0 == w
  {
    hide Wrote, Send, Recorded, PromisesOf, Ended, BrokenRule;
    TheBeatIsAccepted(w, t, beat, encode);
    SendingUncharged(w, beat, encode);
    PromisesOfMore(t, beat);
  }

  /** A record that has no terminal of its own: after a decision, or with a loss, it is the provider's failure. */
  lemma AnUncommittedRunIsTheProvidersFailure(w: Writer, t: Trace, lost: bool, encode: Encoder)
    requires Wrote(w, t, encode) && t != [] && w.terminal.None? && (w.decided.Some? || lost)
    ensures w.stream.runId.Some?
    ensures RecordEnding(w, lost) == Event(w.runId, |t|, Failed(ProviderError, RUNNER_FAILED_MESSAGE))
  {
    PromisesOfWritten(w, t, encode);
  }
}
