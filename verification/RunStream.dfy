/** The rules a run's event stream keeps, checked one event at a time
    (packages/client/src/agent_runtime_client/run_stream.py), and the declarative language of
    traces those rules accept. */
module RunStreams {
  import opened Wire

  datatype ViolationKind =
    | UnknownType | UnsupportedVersion | SchemaMismatch
    | MissingRunStarted | RunIdChanged | SequenceGap | EventAfterTerminal
    | DuplicateToolUseId | UnknownToolUseId | DuplicateToolResult
    | CancelledAfterSideEffect | InterruptedWithoutSideEffect
    | Truncated | MalformedFrame | OversizedFrame | InvalidJson
    | EventTypeMismatch | IdMismatch

  const INTERRUPTED_MESSAGE := "The run was cut short after a side-effecting tool call."

  /** What a run's events so far promise. */
  datatype Promises = Promises(
    runId: Option<nat>,
    nextSeq: nat,
    terminal: Option<Event>,
    toolEffects: map<ToolUseId, ToolEffect>,
    answered: set<ToolUseId>)
  {
    predicate SideEffectEmitted() {
      exists id :: id in toolEffects && toolEffects[id].SideEffecting?
    }
  }

  const NOTHING_PROMISED := Promises(None, 0, None, map[], {})

  /** The first rule `e` breaks, in the order the source checks them. */
  function BrokenRule(p: Promises, e: RunEvent): Option<ViolationKind> {
    if p.terminal.Some? then Some(EventAfterTerminal)
    else if p.runId.None? && !e.body.RunStarted? then Some(MissingRunStarted)
    else if p.runId.Some? && e.runId != p.runId.value then Some(RunIdChanged)
    else if e.seqNo != p.nextSeq then Some(SequenceGap)
    else BrokenToolRule(p, e)
  }

  function BrokenToolRule(p: Promises, e: RunEvent): Option<ViolationKind> {
    match e.body
    case ToolCall(id, _, _, _) =>
      if id in p.toolEffects then Some(DuplicateToolUseId) else None
    case ToolResult(id, _, _) =>
      if id !in p.toolEffects then Some(UnknownToolUseId)
      else if id in p.answered then Some(DuplicateToolResult) else None
    case Cancelled =>
      if p.SideEffectEmitted() then Some(CancelledAfterSideEffect) else None
    case Failed(code, _) =>
      if code.Interrupted? && !p.SideEffectEmitted() then Some(InterruptedWithoutSideEffect) else None
    case _ => None
  }

  function Recorded(p: Promises, e: RunEvent): Promises {
    Promises(
      Some(e.runId),
      p.nextSeq + 1,
      if e.body.Terminal() then Some(e) else p.terminal,
      if e.body.ToolCall? then p.toolEffects[e.body.callId := e.body.effect] else p.toolEffects,
      if e.body.ToolResult? then p.answered + {e.body.resultId} else p.answered)
  }

  /** The terminal that ends a started, unended run if it is cancelled or cut off now. */
  function CutShortEnding(p: Promises): RunEvent
    requires p.runId.Some?
  {
    Event(p.runId.value, p.nextSeq,
          if p.SideEffectEmitted() then Failed(Interrupted, INTERRUPTED_MESSAGE) else Cancelled)
  }

  class RunStream {
    var runId: Option<nat>
    var nextSeq: nat
    var terminal: Option<Event>
    var toolEffects: map<ToolUseId, ToolEffect>
    var answered: set<ToolUseId>

    ghost function View(): Promises
      reads this
    {
      Promises(runId, nextSeq, terminal, toolEffects, answered)
    }

    constructor ()
      ensures View() == NOTHING_PROMISED
    {
      runId, nextSeq, terminal, toolEffects, answered := None, 0, None, map[], {};
    }

    method SideEffectEmitted() returns (emitted: bool)
      ensures emitted == View().SideEffectEmitted()
    {
      emitted := exists id :: id in toolEffects && toolEffects[id].SideEffecting?;
    }

    method DueCutShortEnding() returns (ending: RunEvent)
      requires runId.Some?
      ensures ending == CutShortEnding(View())
    {
      var emitted := SideEffectEmitted();
      if emitted {
        ending := Event(runId.value, nextSeq, Failed(Interrupted, INTERRUPTED_MESSAGE));
      } else {
        ending := Event(runId.value, nextSeq, Cancelled);
      }
    }

    method FindBrokenRule(e: RunEvent) returns (violation: Option<ViolationKind>)
      ensures violation == BrokenRule(View(), e)
    {
      if terminal.Some? {
        return Some(EventAfterTerminal);
      }
      if runId.None? && !e.body.RunStarted? {
        return Some(MissingRunStarted);
      }
      if runId.Some? && e.runId != runId.value {
        return Some(RunIdChanged);
      }
      if e.seqNo != nextSeq {
        return Some(SequenceGap);
      }
      if e.body.ToolCall? && e.body.callId in toolEffects {
        return Some(DuplicateToolUseId);
      }
      if e.body.ToolResult? && e.body.resultId !in toolEffects {
        return Some(UnknownToolUseId);
      }
      if e.body.ToolResult? && e.body.resultId in answered {
        return Some(DuplicateToolResult);
      }
      var emitted := SideEffectEmitted();
      if e.body.Cancelled? {
        if emitted {
          return Some(CancelledAfterSideEffect);
        }
      } else if e.body.Failed? && e.body.code.Interrupted? {
        if !emitted {
          return Some(InterruptedWithoutSideEffect);
        }
      }
      violation := None;
    }

    /** Names the rule the event breaks and leaves the stream as it was, or records it. */
    method Accept(e: RunEvent) returns (violation: Option<ViolationKind>)
      modifies this
      ensures violation == BrokenRule(old(View()), e)
      ensures View() == if violation.None? then Recorded(old(View()), e) else old(View())
    {
      violation := FindBrokenRule(e);
      if violation.None? {
        runId := Some(e.runId);
        nextSeq := nextSeq + 1;
        if e.body.ToolCall? {
          toolEffects := toolEffects[e.body.callId := e.body.effect];
        }
        if e.body.ToolResult? {
          answered := answered + {e.body.resultId};
        }
        if e.body.Terminal() {
          terminal := Some(e);
        }
      }
    }

    method Close() returns (violation: Option<ViolationKind>)
      ensures violation == if View().terminal.Some? then None else Some(Truncated)
    {
      violation := if terminal.Some? then None else Some(Truncated);
    }

    /** None stands for the two refusals: a run that never started, a run that already ended. */
    method CancellationTerminal() returns (ending: Option<RunEvent>)
      ensures ending.Some? <==> View().runId.Some? && View().terminal.None?
      ensures ending.Some? ==> ending.value == CutShortEnding(View())
    {
      if runId.None? || terminal.Some? {
        return None;
      }
      var due := DueCutShortEnding();
      ending := Some(due);
    }
  }

  // ---------------------------------------------------------------- the language of runs

  type Trace = seq<RunEvent>

  /** What the events of `t` promise, each one recorded after the ones before it. */
  function PromisesOf(t: Trace): Promises {
    if |t| == 0 then NOTHING_PROMISED else Recorded(PromisesOf(t[..|t| - 1]), t[|t| - 1])
  }

  /** Every event of `t` was accepted when it was fed after the ones before it. */
  predicate Accepted(t: Trace) {
    |t| == 0 ||
    (Accepted(t[..|t| - 1]) && BrokenRule(PromisesOf(t[..|t| - 1]), t[|t| - 1]).None?)
  }

  predicate Called(t: Trace, id: ToolUseId) {
    exists i :: 0 <= i < |t| && t[i].body.ToolCall? && t[i].body.callId == id
  }

  predicate Answered(t: Trace, id: ToolUseId) {
    exists i :: 0 <= i < |t| && t[i].body.ToolResult? && t[i].body.resultId == id
  }

  predicate MayHaveChangedState(t: Trace) {
    exists i :: 0 <= i < |t| && SideEffectingCall(t[i])
  }

  predicate Ended(t: Trace) {
    exists i :: 0 <= i < |t| && t[i].body.Terminal()
  }

  /** The declarative run language: what may stand at position `k`, given the events before it. */
  predicate MayFollow(before: Trace, e: RunEvent) {
    && !Ended(before)
    && e.seqNo == |before|
    && (|before| == 0 <==> e.body.RunStarted?)
    && (|before| > 0 ==> e.runId == before[0].runId)
    && (e.body.ToolCall? ==> !Called(before, e.body.callId))
    && (e.body.ToolResult? ==> Called(before, e.body.resultId) && !Answered(before, e.body.resultId))
    && (e.body.Cancelled? ==> !MayHaveChangedState(before))
    && (e.body.Failed? && e.body.code.Interrupted? ==> MayHaveChangedState(before))
  }

  predicate InRunLanguage(t: Trace) {
    forall k :: 0 <= k < |t| ==> MayFollow(t[..k], t[k])
  }

  /** The state a trace of the language leaves behind, told from the trace alone. */
  lemma {:induction false} PromisesTellTheTrace(t: Trace)
    requires InRunLanguage(t)
    ensures PromisesOf(t).nextSeq == |t|
    ensures PromisesOf(t).runId == if |t| == 0 then None else Some(t[0].runId)
    ensures PromisesOf(t).terminal.Some? <==> Ended(t)
    ensures Ended(t) ==> PromisesOf(t).terminal == Some(t[|t| - 1])
    ensures forall id :: id in PromisesOf(t).toolEffects <==> Called(t, id)
    ensures forall id :: id in PromisesOf(t).answered <==> Answered(t, id)
    ensures PromisesOf(t).SideEffectEmitted() <==> MayHaveChangedState(t)
  {
    if |t| > 0 {
      var before, e := t[..|t| - 1], t[|t| - 1];
      assert t == before + [e];
      assert InRunLanguage(before) by {
        forall k | 0 <= k < |before| ensures MayFollow(before[..k], before[k]) {
          assert before[..k] == t[..k];
        }
      }
      PromisesTellTheTrace(before);
      assert MayFollow(before, e);
      LastEvent(before, e);
      EffectsAfter(PromisesOf(before), e);
    }
  }

  lemma LastEvent(before: Trace, e: RunEvent)
    ensures Ended(before + [e]) <==> Ended(before) || e.body.Terminal()
    ensures MayHaveChangedState(before + [e]) <==> MayHaveChangedState(before) || SideEffectingCall(e)
    ensures forall id :: Called(before + [e], id) <==>
                         Called(before, id) || (e.body.ToolCall? && e.body.callId == id)
    ensures forall id :: Answered(before + [e], id) <==>
                         Answered(before, id) || (e.body.ToolResult? && e.body.resultId == id)
  {
    var t := before + [e];
    assert t[|before|] == e;
    assert forall i :: 0 <= i < |before| ==> t[i] == before[i];
  }

  lemma EffectsAfter(p: Promises, e: RunEvent)
    requires e.body.ToolCall? ==> e.body.callId !in p.toolEffects
    ensures Recorded(p, e).SideEffectEmitted() <==> p.SideEffectEmitted() || SideEffectingCall(e)
  {
    var q := Recorded(p, e);
    assert forall id :: id in p.toolEffects ==> id in q.toolEffects && q.toolEffects[id] == p.toolEffects[id];
    if e.body.ToolCall? {
      assert e.body.callId in q.toolEffects;
    }
  }

  /** One event after a trace of the language: the stream accepts it exactly when the language does. */
  lemma AcceptsExactlyWhatMayFollow(t: Trace, e: RunEvent)
    requires InRunLanguage(t)
    ensures BrokenRule(PromisesOf(t), e).None? <==> MayFollow(t, e)
  {
    PromisesTellTheTrace(t);
  }

  /** RunStream accepts every event of a trace exactly when the trace is in the run language. */
  lemma {:induction false} AcceptedIsTheRunLanguage(t: Trace)
    ensures Accepted(t) <==> InRunLanguage(t)
  {
    if |t| > 0 {
      var before, e := t[..|t| - 1], t[|t| - 1];
      AcceptedIsTheRunLanguage(before);
      assert forall k :: 0 <= k < |before| ==> before[..k] == t[..k] && before[k] == t[k];
      if InRunLanguage(t) {
        assert forall k :: 0 <= k < |before| ==> MayFollow(before[..k], before[k]);
      }
      if InRunLanguage(before) {
        AcceptsExactlyWhatMayFollow(before, e);
        if MayFollow(before, e) {
          assert forall k :: 0 <= k < |t| ==> MayFollow(t[..k], t[k]);
        } else {
          assert !MayFollow(t[..|t| - 1], t[|t| - 1]);
        }
      }
    }
  }

  /** A run in the language opens with its one `run_started`, keeps one run id, numbers its events
      without a gap, and ends with its one terminal. */
  lemma RunsAreWellFormed(t: Trace)
    requires InRunLanguage(t)
    ensures forall i :: 0 <= i < |t| ==> (t[i].body.RunStarted? <==> i == 0)
    ensures forall i :: 0 <= i < |t| ==> t[i].seqNo == i && t[i].runId == t[0].runId
    ensures forall i :: 0 <= i < |t| && t[i].body.Terminal() ==> i == |t| - 1
  {
    forall i | 0 <= i < |t|
      ensures t[i].body.RunStarted? <==> i == 0
      ensures t[i].seqNo == i && t[i].runId == t[0].runId
      ensures t[i].body.Terminal() ==> i == |t| - 1
    {
      assert MayFollow(t[..i], t[i]);
      assert MayFollow(t[..|t| - 1], t[|t| - 1]);
      assert i < |t| - 1 ==> t[..|t| - 1][i] == t[i];
    }
  }

  /** The header of `e` is the one due after `t`. */
  predicate HeaderFits(t: Trace, e: RunEvent) {
    && !Ended(t)
    && (t == [] ==> e.body.RunStarted?)
    && (t != [] ==> e.runId == t[0].runId)
    && e.seqNo == |t|
  }

  predicate HeaderKind(kind: ViolationKind) {
    kind.EventAfterTerminal? || kind.MissingRunStarted? || kind.RunIdChanged? || kind.SequenceGap?
  }

  lemma HeaderViolations(t: Trace, e: RunEvent)
    requires InRunLanguage(t)
    ensures var named := BrokenRule(PromisesOf(t), e);
            && (named == Some(EventAfterTerminal) <==> Ended(t))
            && (named == Some(MissingRunStarted) <==> t == [] && !e.body.RunStarted?)
            && (named == Some(RunIdChanged) <==> !Ended(t) && t != [] && e.runId != t[0].runId)
            && (named == Some(SequenceGap) <==>
                !Ended(t) && t != [] && e.runId == t[0].runId && e.seqNo != |t|)
            && (HeaderFits(t, e) ==> named == BrokenToolRule(PromisesOf(t), e))
            && (!HeaderFits(t, e) ==> named.Some? && HeaderKind(named.value))
  {
    PromisesTellTheTrace(t);
    hide PromisesOf, InRunLanguage, Ended, Called, Answered, MayHaveChangedState, BrokenToolRule;
    BrokenToolRuleIsNoHeaderRule(PromisesOf(t), e);
  }

  lemma BrokenToolRuleIsNoHeaderRule(p: Promises, e: RunEvent)
    ensures BrokenToolRule(p, e).Some? ==> !HeaderKind(BrokenToolRule(p, e).value)
  {
  }

  lemma ToolViolations(t: Trace, e: RunEvent)
    requires InRunLanguage(t)
    ensures var named := BrokenToolRule(PromisesOf(t), e);
            && (named == Some(DuplicateToolUseId) <==> e.body.ToolCall? && Called(t, e.body.callId))
            && (named == Some(UnknownToolUseId) <==> e.body.ToolResult? && !Called(t, e.body.resultId))
            && (named == Some(DuplicateToolResult) <==>
                e.body.ToolResult? && Called(t, e.body.resultId) && Answered(t, e.body.resultId))
            && (named == Some(CancelledAfterSideEffect) <==> e.body.Cancelled? && MayHaveChangedState(t))
            && (named == Some(InterruptedWithoutSideEffect) <==>
                e.body.Failed? && e.body.code.Interrupted? && !MayHaveChangedState(t))
            && (named.Some? ==> !HeaderKind(named.value))
  {
    PromisesTellTheTrace(t);
    hide PromisesOf, InRunLanguage;
  }

  /** Which rule a refusal names, told from the trace so far. */
  lemma ViolationNamesTheFirstBrokenRule(t: Trace, e: RunEvent)
    requires InRunLanguage(t)
    ensures var named := BrokenRule(PromisesOf(t), e);
            && (named == Some(EventAfterTerminal) <==> Ended(t))
            && (named == Some(MissingRunStarted) <==> t == [] && !e.body.RunStarted?)
            && (named == Some(RunIdChanged) <==> !Ended(t) && t != [] && e.runId != t[0].runId)
            && (named == Some(SequenceGap) <==>
                !Ended(t) && t != [] && e.runId == t[0].runId && e.seqNo != |t|)
            && (named == Some(DuplicateToolUseId) <==>
                HeaderFits(t, e) && e.body.ToolCall? && Called(t, e.body.callId))
            && (named == Some(UnknownToolUseId) <==>
                HeaderFits(t, e) && e.body.ToolResult? && !Called(t, e.body.resultId))
            && (named == Some(DuplicateToolResult) <==>
                HeaderFits(t, e) && e.body.ToolResult? && Called(t, e.body.resultId)
                && Answered(t, e.body.resultId))
            && (named == Some(CancelledAfterSideEffect) <==>
                HeaderFits(t, e) && e.body.Cancelled? && MayHaveChangedState(t))
            && (named == Some(InterruptedWithoutSideEffect) <==>
                HeaderFits(t, e) && e.body.Failed? && e.body.code.Interrupted?
                && !MayHaveChangedState(t))
  {
    HeaderViolations(t, e);
    ToolViolations(t, e);
    hide PromisesOf, Ended, Called, Answered, MayHaveChangedState, HeaderFits, InRunLanguage, BrokenRule, BrokenToolRule;
  }

  lemma AcceptedNext(t: Trace, e: RunEvent)
    requires Accepted(t)
    ensures Accepted(t + [e]) <==> MayFollow(t, e)
  {
    AcceptedIsTheRunLanguage(t);
    AcceptsExactlyWhatMayFollow(t, e);
    assert (t + [e])[..|t|] == t;
  }

  lemma CutShortEndingMayFollow(t: Trace)
    requires InRunLanguage(t) && t != [] && !Ended(t)
    ensures PromisesOf(t).runId.Some?
    ensures MayFollow(t, CutShortEnding(PromisesOf(t)))
    ensures CutShortEnding(PromisesOf(t)).body.Failed? <==> MayHaveChangedState(t)
  {
    PromisesTellTheTrace(t);
  }

  /** Whenever a started run is cancelled or cut off before its end, the terminal the stream names
      is accepted next, and of the two cut-short endings exactly one is. */
  lemma CancellationIsAlwaysAcceptedNext(t: Trace, message: string)
    requires Accepted(t) && t != [] && !Ended(t)
    ensures PromisesOf(t).runId.Some?
    ensures Accepted(t + [CutShortEnding(PromisesOf(t))])
    ensures Accepted(t + [Event(t[0].runId, |t|, Cancelled)]) <==>
            !Accepted(t + [Event(t[0].runId, |t|, Failed(Interrupted, message))])
  {
    AcceptedIsTheRunLanguage(t);
    CutShortEndingMayFollow(t);
    var ending := CutShortEnding(PromisesOf(t));
    AcceptedNext(t, ending);
    AcceptedNext(t, Event(t[0].runId, |t|, Cancelled));
    AcceptedNext(t, Event(t[0].runId, |t|, Failed(Interrupted, message)));
  }
}
