/** One admitted run as the frames of its wire stream (packages/service/src/agent_runtime_service/run_events.py):
    the mapping of the core's events, the budget, and the terminal that is decided once and committed
    once. A frame is its event; the encoder is a parameter that gives its size, or None when the event
    cannot be written. */
module WireRuns {
  import opened Wire
  import opened RunStreams

  const NO_ANSWER_MESSAGE := "The provider ended the run without an answer."
  const RUNNER_FAILED_MESSAGE := "The provider failed during the run."
  const UNMAPPABLE_EVENT_MESSAGE := "The provider sent an event the service cannot map."
  const INVALID_EVENT_MESSAGE := "The provider sent an event that is not valid."
  const TOO_MANY_TOOL_CALLS_MESSAGE := "The run made too many tool calls."
  const TOO_MUCH_DATA_MESSAGE := "The run sent too much data."

  type Encoder = RunEvent -> Option<nat>

  /** What the provider core's turn yields. */
  datatype TurnEvent =
    | TextEvent(text: string)
    | CallEvent(callId: ToolUseId, name: string, input: string, inputIsJson: bool)
    | ResultEvent(resultId: ToolUseId, content: string, isError: bool)
    | FinalEvent(answer: string)
    | OtherEvent

  datatype RunnerOutcome = RunnerYielded(event: TurnEvent) | RunnerExhausted | RunnerRaised

  datatype Decision = Success(event: RunEvent) | Failure(code: FailureCode, message: string)

  const CONTAINMENT_LOST := Failure(ProviderError, RUNNER_FAILED_MESSAGE)
  const COMMIT_FAILED := Failure(ProviderError, RUNNER_FAILED_MESSAGE)

  datatype Limits = Limits(maxToolCalls: nat, maxBytes: nat)

  /** What an event is refused for. */
  datatype Refusal =
    | CannotBeWritten(body: Body) | BrokeStreamRule(kind: ViolationKind) | Unmappable(message: string)
    | OverBudget(message: string)

  function TypeText(b: Body): string {
    match b
    case RunStarted(_) => "run_started"
    case AssistantText(_) => "assistant_text"
    case ToolCall(_, _, _, _) => "tool_call"
    case ToolResult(_, _, _) => "tool_result"
    case Heartbeat => "heartbeat"
    case Succeeded(_) => "succeeded"
    case Failed(_, _) => "failed"
    case Cancelled => "cancelled"
  }

  function KindText(kind: ViolationKind): string {
    match kind
    case UnknownType => "unknown_type"
    case UnsupportedVersion => "unsupported_version"
    case SchemaMismatch => "schema_mismatch"
    case MissingRunStarted => "missing_run_started"
    case RunIdChanged => "run_id_changed"
    case SequenceGap => "sequence_gap"
    case EventAfterTerminal => "event_after_terminal"
    case DuplicateToolUseId => "duplicate_tool_use_id"
    case UnknownToolUseId => "unknown_tool_use_id"
    case DuplicateToolResult => "duplicate_tool_result"
    case CancelledAfterSideEffect => "cancelled_after_side_effect"
    case InterruptedWithoutSideEffect => "interrupted_without_side_effect"
    case Truncated => "truncated"
    case MalformedFrame => "malformed_frame"
    case OversizedFrame => "oversized_frame"
    case InvalidJson => "invalid_json"
    case EventTypeMismatch => "event_type_mismatch"
    case IdMismatch => "id_mismatch"
  }

  datatype Writer = Writer(
    runId: nat, limits: Limits, effects: map<string, ToolEffect>,
    seqNo: nat, toolCalls: nat, bytes: nat,
    decided: Option<Decision>, terminal: Option<RunEvent>, stream: Promises)

  function NewWriter(runId: nat, limits: Limits, effects: map<string, ToolEffect>): Writer {
    Writer(runId, limits, effects, 0, 0, 0, None, None, NOTHING_PROMISED)
  }

  predicate ServiceWritten(e: RunEvent) {
    e.body.RunStarted? || e.body.Heartbeat? || e.body.Failed?
  }

  /** Counts a runner-caused frame against the budget; a refused event is charged nothing. */
  function ChargeFor(w: Writer, e: RunEvent, size: nat): (Writer, Option<Refusal>) {
    if ServiceWritten(e) then (w, None)
    else if e.body.ToolCall? && w.toolCalls >= w.limits.maxToolCalls then (w, Some(OverBudget(TOO_MANY_TOOL_CALLS_MESSAGE)))
    else if w.bytes + size > w.limits.maxBytes then (w, Some(OverBudget(TOO_MUCH_DATA_MESSAGE)))
    else (w.(toolCalls := w.toolCalls + (if e.body.ToolCall? then 1 else 0), bytes := w.bytes + size), None)
  }

  /** Only an event that was sent takes a sequence number. */
  function Send(w: Writer, e: RunEvent, encode: Encoder): (Writer, Option<Refusal>) {
    match encode(e)
    case None => (w, Some(CannotBeWritten(e.body)))
    case Some(size) =>
      var (charged, refusal) := ChargeFor(w, e, size);
      if refusal.Some? then (charged, refusal)
      else
        var broken := BrokenRule(w.stream, e);
        if broken.Some? then (charged, Some(BrokeStreamRule(broken.value)))
        else (charged.(seqNo := w.seqNo + 1, stream := Recorded(w.stream, e)), None)
  }

  function FailureOf(refusal: Refusal): Decision {
    match refusal
    case OverBudget(message) => Failure(LimitExceeded, message)
    case Unmappable(message) => Failure(ProviderError, message)
    case CannotBeWritten(body) => Failure(ProviderError, "The provider's " + TypeText(body) + " cannot be sent.")
    case BrokeStreamRule(kind) => Failure(ProviderError, "The provider broke the run's stream rules: " + KindText(kind) + ".")
  }

  function Due(w: Writer, body: Body): RunEvent
    requires !body.RunStarted?
  {
    Event(w.runId, w.seqNo, body)
  }

  function FailedEvent(w: Writer, d: Decision): RunEvent
    requires d.Failure?
  {
    Due(w, Failed(d.code, d.message))
  }

  datatype Mapped = Nothing | WireEvent(event: RunEvent) | Refused(message: string)

  function Map(w: Writer, e: TurnEvent): Mapped {
    match e
    case TextEvent(text) => if text == "" then Nothing else WireEvent(Due(w, AssistantText(text)))
    case CallEvent(id, name, input, inputIsJson) =>
      if id == "" || !inputIsJson then Refused(INVALID_EVENT_MESSAGE)
      else WireEvent(Due(w, ToolCall(id, name, input, if name in w.effects then w.effects[name] else SideEffecting)))
    case ResultEvent(id, content, isError) =>
      if id == "" then Refused(INVALID_EVENT_MESSAGE) else WireEvent(Due(w, ToolResult(id, content, isError)))
    case FinalEvent(answer) =>
      if answer == "" then Refused(INVALID_EVENT_MESSAGE) else WireEvent(Due(w, Succeeded(answer)))
    case OtherEvent => Refused(UNMAPPABLE_EVENT_MESSAGE)
  }

  function Decide(w: Writer, d: Decision): Writer {
    w.(decided := Some(d))
  }

  /** The frame of an outcome that is sent at once, if any; an ending is only decided. */
  function FrameFor(w: Writer, outcome: RunnerOutcome, encode: Encoder): (Writer, Option<RunEvent>) {
    match outcome
    case RunnerExhausted => (Decide(w, Failure(ProviderError, NO_ANSWER_MESSAGE)), None)
    case RunnerRaised => (Decide(w, Failure(ProviderError, RUNNER_FAILED_MESSAGE)), None)
    case RunnerYielded(event) =>
      match Map(w, event)
      case Nothing => (w, None)
      case Refused(message) => (Decide(w, FailureOf(Unmappable(message))), None)
      case WireEvent(e) =>
        if event.FinalEvent? then (Decide(w, Success(e)), None)
        else
          var (sent, refusal) := Send(w, e, encode);
          if refusal.Some? then (Decide(sent, FailureOf(refusal.value)), None) else (sent, Some(e))
  }

  /** The commit of the decided terminal: a containment loss turns it into a failure, a success that
      cannot be sent becomes the failure of its refusal. False when that failure was refused too. */
  function Commit(w: Writer, lost: bool, encode: Encoder): (Writer, bool) {
    match w.decided
    case None => (w, true)
    case Some(decided) =>
      var d := if lost then CONTAINMENT_LOST else decided;
      if d.Failure? then CommitFailure(w, d, encode)
      else
        var (sent, refusal) := Send(w, d.event, encode);
        if refusal.None? then (sent.(terminal := Some(d.event)), true)
        else CommitFailure(sent, FailureOf(refusal.value), encode)
  }

  function CommitFailure(w: Writer, d: Decision, encode: Encoder): (Writer, bool)
    requires d.Failure?
  {
    var e := FailedEvent(w, d);
    var (sent, refusal) := Send(w, e, encode);
    if refusal.None? then (sent.(terminal := Some(e)), true) else (sent, false)
  }

  /** What the run's record ends with: the committed terminal, or the fallback the state chooses. */
  function RecordEnding(w: Writer, lost: bool): RunEvent
    requires w.stream.runId.Some?
  {
    if w.terminal.Some? then w.terminal.value
    else if lost then FailedEvent(w, CONTAINMENT_LOST)
    else if w.decided.Some? then FailedEvent(w, COMMIT_FAILED)
    else CutShortEnding(w.stream)
  }

  // ---------------------------------------------------------------- what it keeps

  function Charged(e: RunEvent, encode: Encoder): nat {
    if ServiceWritten(e) || encode(e).None? then 0 else encode(e).value
  }

  /** The bytes the budget counts of a trace, and its tool calls. */
  function BytesOf(t: Trace, encode: Encoder): nat {
    if t == [] then 0 else BytesOf(t[..|t| - 1], encode) + Charged(t[|t| - 1], encode)
  }

  function CallsOf(t: Trace): nat {
    if t == [] then 0 else CallsOf(t[..|t| - 1]) + if t[|t| - 1].body.ToolCall? then 1 else 0
  }

  /** The writer wrote exactly the trace `t`, which the run language accepts, within its budget. */
  ghost predicate Wrote(w: Writer, t: Trace, encode: Encoder) {
    && Accepted(t) && w.stream == PromisesOf(t) && w.seqNo == |t|
    && (t != [] ==> w.runId == t[0].runId)
    && (forall e :: e in t ==> encode(e).Some?)
    && BytesOf(t, encode) <= w.bytes <= w.limits.maxBytes
    && CallsOf(t) <= w.toolCalls <= w.limits.maxToolCalls
  }

  lemma PromisesOfWritten(w: Writer, t: Trace, encode: Encoder)
    requires Wrote(w, t, encode)
    ensures w.stream.nextSeq == |t|
    ensures w.stream.runId == if t == [] then None else Some(t[0].runId)
    ensures w.stream.terminal.Some? <==> Ended(t)
    ensures w.stream.SideEffectEmitted() <==> MayHaveChangedState(t)
  {
    AcceptedIsTheRunLanguage(t);
    PromisesTellTheTrace(t);
  }

  predicate SameButSending(v: Writer, w: Writer) {
    v.runId == w.runId && v.limits == w.limits && v.effects == w.effects
    && v.decided == w.decided && v.terminal == w.terminal
  }

  /** A sent event extends the written trace by itself; a refused one leaves the trace as it was. */
  lemma SendingKeeps(w: Writer, t: Trace, e: RunEvent, encode: Encoder)
    requires Wrote(w, t, encode) && e.runId == w.runId
    ensures var (v, refusal) := Send(w, e, encode);
            && SameButSending(v, w)
            && (refusal.None? ==> Wrote(v, t + [e], encode))
            && (refusal.Some? ==> Wrote(v, t, encode) && v.seqNo == w.seqNo && v.stream == w.stream)
  {
    assert (t + [e])[..|t|] == t;
  }

  /** A decided success still carries the sequence number that is due. */
  predicate SuccessIsDue(w: Writer) {
    w.decided.Some? && w.decided.value.Success? ==>
      var e := w.decided.value.event;
      e.runId == w.runId && e.seqNo == w.seqNo && e.body.Succeeded?
  }

  const MAX_MESSAGE_LENGTH := 500

  /** A failure the service decides: no message of a provider, and never the cut-short ending. */
  predicate OwnFailure(d: Decision) {
    d.Failure? && !d.code.Interrupted? && |d.message| <= MAX_MESSAGE_LENGTH
  }

  predicate OwnDecision(w: Writer) {
    SuccessIsDue(w) && (w.decided.Some? && w.decided.value.Failure? ==> OwnFailure(w.decided.value))
  }

  /** Every failure the service decides can be written as the event that is due. */
  ghost predicate FailuresFit(w: Writer, encode: Encoder) {
    forall d :: OwnFailure(d) ==> encode(FailedEvent(w, d)).Some?
  }

  lemma RefusalsAreOwnFailures(refusal: Refusal)
    requires refusal.OverBudget? || refusal.Unmappable? ==> |refusal.message| <= MAX_MESSAGE_LENGTH
    ensures OwnFailure(FailureOf(refusal))
  {
    if refusal.CannotBeWritten? {
      assert |TypeText(refusal.body)| <= 20;
    } else if refusal.BrokeStreamRule? {
      assert |KindText(refusal.kind)| <= 40;
    }
  }

  lemma FailureIsSent(w: Writer, t: Trace, d: Decision, encode: Encoder)
    requires OwnFailure(d) && Wrote(w, t, encode) && t != [] && !Ended(t)
    ensures var (v, ok) := CommitFailure(w, d, encode);
            && (ok <==> encode(FailedEvent(w, d)).Some?)
            && (ok ==> Wrote(v, t + [FailedEvent(w, d)], encode) && v.terminal == Some(FailedEvent(w, d)))
            && (!ok ==> Wrote(v, t, encode) && v.terminal == w.terminal && v.seqNo == w.seqNo)
            && v.decided == w.decided && v.runId == w.runId
  {
    hide BytesOf, CallsOf, Accepted, Recorded;
    AcceptedIsTheRunLanguage(t);
    AcceptsExactlyWhatMayFollow(t, FailedEvent(w, d));
    SendingKeeps(w, t, FailedEvent(w, d), encode);
  }

  predicate FitsBudget(w: Writer, e: RunEvent, encode: Encoder) {
    encode(e).Some? && w.bytes + encode(e).value <= w.limits.maxBytes
  }

  /** A success whose number is due is refused for its size or the budget alone. */
  lemma DueSuccessIsSent(w: Writer, t: Trace, encode: Encoder)
    requires Wrote(w, t, encode) && t != [] && !Ended(t)
    requires SuccessIsDue(w) && w.decided.Some? && w.decided.value.Success?
    ensures Send(w, w.decided.value.event, encode).1.None? <==> FitsBudget(w, w.decided.value.event, encode)
  {
    hide BytesOf, CallsOf, Accepted, Recorded;
    AcceptedIsTheRunLanguage(t);
    AcceptsExactlyWhatMayFollow(t, w.decided.value.event);
  }

  /** The commit of a run that has a decision and is not ended: it writes exactly one terminal, the
      decided one unless a loss, the size or the budget stands against it; it fails only when the
      service's own failure cannot be written. */
  lemma CommitKeeps(w: Writer, t: Trace, lost: bool, encode: Encoder)
    requires Wrote(w, t, encode) && t != [] && !Ended(t) && w.terminal.None?
    requires w.decided.Some? && OwnDecision(w)
    ensures var (v, ok) := Commit(w, lost, encode);
            && v.decided == w.decided && v.runId == w.runId
            && (ok <==> v.terminal.Some?)
            && (ok ==> v.terminal.value.body.Terminal() && !v.terminal.value.body.Cancelled?
                       && Wrote(v, t + [v.terminal.value], encode))
            && (!ok ==> Wrote(v, t, encode) && v.seqNo == w.seqNo)
            && (FailuresFit(w, encode) ==> ok)
            && (ok && lost ==> v.terminal == Some(FailedEvent(w, CONTAINMENT_LOST)))
            && (!lost && w.decided.value.Success? ==>
                (v.terminal == Some(w.decided.value.event) <==> FitsBudget(w, w.decided.value.event, encode)))
            && (ok && !lost && w.decided.value.Failure? ==> v.terminal == Some(FailedEvent(w, w.decided.value)))
  {
    hide Send, Accepted, PromisesOf, BytesOf, CallsOf, CommitFailure;
    var d := if lost then CONTAINMENT_LOST else w.decided.value;
    if d.Failure? {
      FailureIsSent(w, t, d, encode);
    } else {
      DueSuccessIsSent(w, t, encode);
      SendingKeeps(w, t, d.event, encode);
      var (sent, refusal) := Send(w, d.event, encode);
      if refusal.Some? {
        RefusalsAreBrief(w, t, d.event, encode);
        RefusalsAreOwnFailures(refusal.value);
        FailureIsSent(sent, t, FailureOf(refusal.value), encode);
        assert FailedEvent(sent, FailureOf(refusal.value)) == FailedEvent(w, FailureOf(refusal.value));
      }
    }
  }

  lemma RefusalsAreBrief(w: Writer, t: Trace, e: RunEvent, encode: Encoder)
    requires Wrote(w, t, encode)
    ensures var refusal := Send(w, e, encode).1;
            refusal.Some? ==> (&& !refusal.value.Unmappable?
                               && (refusal.value.OverBudget? ==> |refusal.value.message| <= MAX_MESSAGE_LENGTH))
  {
    hide BytesOf, CallsOf, Accepted, Recorded, PromisesOf;
  }

  /** One outcome of the runner: it is either sent and nothing is decided, or nothing is sent. */
  lemma FrameKeeps(w: Writer, t: Trace, outcome: RunnerOutcome, encode: Encoder)
    requires Wrote(w, t, encode) && w.decided.None? && w.terminal.None?
    ensures var (v, frame) := FrameFor(w, outcome, encode);
            && v.terminal.None? && v.runId == w.runId && OwnDecision(v)
            && (frame.Some? ==> v.decided.None? && Wrote(v, t + [frame.value], encode) && !frame.value.body.Terminal())
            && (frame.None? ==> Wrote(v, t, encode))
  {
    hide Send, Accepted, PromisesOf, BytesOf, CallsOf, BrokenRule, Recorded;
    if outcome.RunnerYielded? {
      var mapped := Map(w, outcome.event);
      if mapped.WireEvent? {
        SendingKeeps(w, t, mapped.event, encode);
        var (v, frame) := FrameFor(w, outcome, encode);
        assert frame.Some? ==> frame.value == mapped.event;
        assert frame.Some? ==> v == Send(w, mapped.event, encode).0;
        RefusalsAreBrief(w, t, mapped.event, encode);
        var refusal := Send(w, mapped.event, encode).1;
        if refusal.Some? {
          RefusalsAreOwnFailures(refusal.value);
        }
      }
    }
  }

  /** The record of every run, whatever became of it, is a whole run of the run language: the written
      trace and one terminal, which after a containment loss is always the provider's failure. */
  lemma RecordsAreWholeRuns(w: Writer, t: Trace, lost: bool, encode: Encoder)
    requires Wrote(w, t, encode) && t != [] && !Ended(t) && w.terminal.None? && OwnDecision(w)
    ensures var v := Commit(w, lost, encode).0;
            && v.stream.runId.Some?
            && RecordEnding(v, lost).body.Terminal()
            && Accepted(t + [RecordEnding(v, lost)])
            && (lost ==> RecordEnding(v, lost).body == Failed(ProviderError, RUNNER_FAILED_MESSAGE))
            && (RecordEnding(v, lost).body.Succeeded? ==> v.terminal.Some?)
  {
    var v := Commit(w, lost, encode).0;
    if w.decided.Some? {
      CommitKeeps(w, t, lost, encode);
    }
    hide Commit, BytesOf, CallsOf, PromisesOf, Accepted;
    AcceptedIsTheRunLanguage(t);
    PromisesOfWritten(w, t, encode);
    if v.terminal.None? {
      PromisesOfWritten(v, t, encode);
      CutShortEndingMayFollow(t);
      AcceptedNext(t, RecordEnding(v, lost));
    }
  }

  class WireRun {
    const runId: nat
    const limits: Limits
    const effects: map<string, ToolEffect>
    const encode: Encoder
    const stream: RunStream
    var seqNo: nat
    var toolCalls: nat
    var bytes: nat
    var decided: Option<Decision>
    var terminal: Option<RunEvent>

    ghost function View(): Writer
      reads this, stream
    {
      Writer(runId, limits, effects, seqNo, toolCalls, bytes, decided, terminal, stream.View())
    }

    constructor (runId: nat, limits: Limits, effects: map<string, ToolEffect>, encode: Encoder)
      ensures View() == NewWriter(runId, limits, effects)
      ensures this.encode == encode && fresh(stream)
    {
      this.runId, this.limits, this.effects, this.encode := runId, limits, effects, encode;
      stream := new RunStream();
      seqNo, toolCalls, bytes, decided, terminal := 0, 0, 0, None, None;
    }

    method Charge(e: RunEvent, size: nat) returns (refusal: Option<Refusal>)
      modifies this
      ensures (View(), refusal) == ChargeFor(old(View()), e, size)
    {
      if e.body.RunStarted? || e.body.Heartbeat? || e.body.Failed? {
        return None;
      }
      if e.body.ToolCall? && toolCalls >= limits.maxToolCalls {
        return Some(OverBudget(TOO_MANY_TOOL_CALLS_MESSAGE));
      }
      if bytes + size > limits.maxBytes {
        return Some(OverBudget(TOO_MUCH_DATA_MESSAGE));
      }
      if e.body.ToolCall? {
        toolCalls := toolCalls + 1;
      }
      bytes := bytes + size;
      refusal := None;
    }

    method Sent(e: RunEvent) returns (refusal: Option<Refusal>)
      modifies this, stream
      ensures (View(), refusal) == Send(old(View()), e, encode)
    {
      var size := encode(e);
      if size.None? {
        return Some(CannotBeWritten(e.body));
      }
      refusal := Charge(e, size.value);
      if refusal.Some? {
        return;
      }
      var violation := stream.Accept(e);
      if violation.Some? {
        return Some(BrokeStreamRule(violation.value));
      }
      seqNo := seqNo + 1;
    }

    method Started(heartbeatIntervalS: nat) returns (refusal: Option<Refusal>)
      requires seqNo == 0
      modifies this, stream
      ensures (View(), refusal) == Send(old(View()), Event(runId, 0, RunStarted(heartbeatIntervalS)), encode)
    {
      refusal := Sent(Event(runId, seqNo, RunStarted(heartbeatIntervalS)));
    }

    method Heartbeat() returns (refusal: Option<Refusal>)
      modifies this, stream
      ensures (View(), refusal) == Send(old(View()), Due(old(View()), Body.Heartbeat), encode)
    {
      refusal := Sent(Event(runId, seqNo, Body.Heartbeat));
    }

    method DecideFailure(code: FailureCode, message: string)
      modifies this
      ensures View() == Decide(old(View()), Failure(code, message))
    {
      decided := Some(Failure(code, message));
    }

    method FrameOf(outcome: RunnerOutcome) returns (frame: Option<RunEvent>)
      modifies this, stream
      ensures (View(), frame) == FrameFor(old(View()), outcome, encode)
    {
      ghost var w := View();
      frame := None;
      match outcome
      case RunnerExhausted =>
        DecideFailure(ProviderError, NO_ANSWER_MESSAGE);
      case RunnerRaised =>
        DecideFailure(ProviderError, RUNNER_FAILED_MESSAGE);
      case RunnerYielded(event) =>
        var mapped := WireEventOf(event);
        match mapped
        case Nothing =>
        case Refused(message) =>
          decided := Some(FailureOf(Unmappable(message)));
        case WireEvent(e) =>
          if event.FinalEvent? {
            decided := Some(Success(e));
          } else {
            var refusal := Sent(e);
            if refusal.Some? {
              decided := Some(FailureOf(refusal.value));
            } else {
              frame := Some(e);
            }
          }
    }

    method WireEventOf(e: TurnEvent) returns (mapped: Mapped)
      ensures mapped == Map(View(), e)
    {
      match e
      case TextEvent(text) =>
        mapped := if text == "" then Nothing else WireEvent(Event(runId, seqNo, AssistantText(text)));
      case CallEvent(id, name, input, inputIsJson) =>
        if id == "" || !inputIsJson {
          return Refused(INVALID_EVENT_MESSAGE);
        }
        var effect := if name in effects then effects[name] else SideEffecting;
        mapped := WireEvent(Event(runId, seqNo, ToolCall(id, name, input, effect)));
      case ResultEvent(id, content, isError) =>
        if id == "" {
          return Refused(INVALID_EVENT_MESSAGE);
        }
        mapped := WireEvent(Event(runId, seqNo, ToolResult(id, content, isError)));
      case FinalEvent(answer) =>
        if answer == "" {
          return Refused(INVALID_EVENT_MESSAGE);
        }
        mapped := WireEvent(Event(runId, seqNo, Succeeded(answer)));
      case OtherEvent =>
        mapped := Refused(UNMAPPABLE_EVENT_MESSAGE);
    }

    /** False stands for the refusal the commit raises when its failure cannot be sent. */
    method CommitTerminal(lost: bool) returns (ok: bool)
      modifies this, stream
      ensures (View(), ok) == Commit(old(View()), lost, encode)
    {
      if decided.None? {
        return true;
      }
      var d := if lost then CONTAINMENT_LOST else decided.value;
      if d.Success? {
        var refusal := Sent(d.event);
        if refusal.None? {
          terminal := Some(d.event);
          return true;
        }
        d := FailureOf(refusal.value);
      }
      ok := SendFailure(d);
    }

    method SendFailure(d: Decision) returns (ok: bool)
      requires d.Failure?
      modifies this, stream
      ensures (View(), ok) == CommitFailure(old(View()), d, encode)
    {
      var e := Event(runId, seqNo, Failed(d.code, d.message));
      var refusal := Sent(e);
      if refusal.None? {
        terminal := Some(e);
      }
      ok := refusal.None?;
    }

    /** The event the record of the run ends with. */
    method RunOver(lost: bool) returns (ending: RunEvent)
      requires stream.runId.Some? && (terminal.None? ==> stream.terminal.None?)
      ensures ending == RecordEnding(View(), lost)
    {
      if terminal.Some? {
        return terminal.value;
      }
      if lost {
        return Event(runId, seqNo, Failed(CONTAINMENT_LOST.code, CONTAINMENT_LOST.message));
      }
      if decided.Some? {
        return Event(runId, seqNo, Failed(COMMIT_FAILED.code, COMMIT_FAILED.message));
      }
      var cutShort := stream.CancellationTerminal();
      ending := cutShort.value;
    }
  }
}
