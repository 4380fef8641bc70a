/** The run contract that travels between the agent service and its clients: the closed
    union of run events (packages/client/src/agent_runtime_client/wire.py). */
module Wire {

  datatype Option<+T> = None | Some(value: T)

  datatype FailureCode =
    | Interrupted | ProviderUnavailable | ProviderError
    | LimitExceeded | IdleTimeout | InternalError

  datatype ToolEffect = ReadOnly | SideEffecting

  type ToolUseId = string

  /** What one event says, apart from the header every event carries. A tool's input is the
      compact text of its JSON object. */
  datatype Body =
    | RunStarted(heartbeatIntervalS: nat)
    | AssistantText(text: string)
    | ToolCall(callId: ToolUseId, name: string, input: string, effect: ToolEffect)
    | ToolResult(resultId: ToolUseId, content: string, isError: bool)
    | Heartbeat
    | Succeeded(answer: string)
    | Failed(code: FailureCode, message: string)
    | Cancelled
  {
    predicate Terminal() {
      Succeeded? || Failed? || Cancelled?
    }
  }

  datatype Event = Event(runId: nat, seqNo: nat, body: Body)

  /** `run_started` carries the literal sequence number 0; every other event any number. */
  type RunEvent = e: Event | e.body.RunStarted? ==> e.seqNo == 0
    witness Event(0, 0, Heartbeat)

  predicate SideEffectingCall(e: Event) {
    e.body.ToolCall? && e.body.effect.SideEffecting?
  }
}
