/** What the tool-call barrier promises, over every interleaving of its steps. */
module ToolBarrierProperties {
  import opened Wire
  import opened ToolBarrier

  /** The barrier after any sequence of steps; a step that cannot happen then is left out. */
  ghost function After(steps: seq<Step>, carries: string -> bool): (s: Run)
    ensures Inv(s) && Numbered(s.b)
  {
    if steps == [] then START
    else
      var s, step := After(steps[..|steps| - 1], carries), steps[|steps| - 1];
      if Enabled(s, step) then
        EveryStepKeepsTheInvariant(s, step, carries);
        Next(s, step, carries)
      else s
  }

  /** Whatever the interleaving, what the barrier hands out, accepts, forwards and releases follows
      the protocol: one event at a time, each at most once, a result only after its call was
      accepted, a forward and a reply only in the accept of their own event. */
  lemma EveryLogIsSafe(steps: seq<Step>, carries: string -> bool)
    ensures LogSafe(After(steps, carries).log)
  {
  }

  lemma PendingCallsAreBounded(steps: seq<Step>, carries: string -> bool)
    ensures var b := After(steps, carries).b;
            && |b.pending| <= MAX_PENDING_TOOL_CALLS && Distinct(b.pending)
            && forall n, m :: n in b.pending && m in b.pending && n != m ==>
                 b.calls[n].requestId != b.calls[m].requestId
  {
  }

  /** What any step may do to a call: its identity stays, its cancel and its answer are final. */
  predicate CallEvolves(before: Call, after: Call) {
    && after.requestId == before.requestId && after.params == before.params
    && (before.cancelledByCli ==> after.cancelledByCli)
    && (before.ended ==> after.ended)
    && (!before.response.Waiting? ==> after.response == before.response)
  }

  predicate CallsEvolve(b: Barrier, c: Barrier) {
    && |b.calls| <= |c.calls|
    && (b.stopped ==> c.stopped)
    && forall n :: 0 <= n < |b.calls| ==> CallEvolves(b.calls[n], c.calls[n])
  }

  /** Steps other than an accept start no forward and release no reply. */
  predicate NothingReleased(b: Barrier, c: Barrier) {
    && c.forwards.Keys <= b.forwards.Keys
    && |b.calls| <= |c.calls|
    && forall n :: 0 <= n < |b.calls| && ReplyHeld(c.calls[n]) ==> ReplyHeld(b.calls[n])
  }

  lemma OtherStepsReleaseNothing(s: Run, step: Step, carries: string -> bool)
    requires Numbered(s.b) && Enabled(s, step) && !step.EventAccepted?
    ensures NothingReleased(s.b, Next(s, step, carries).b)
  {
    hide Complete, Cancel, NextEvent, Remove;
    match step {
      case CliCancels(id) => CancelEvolves(s.b, id);
      case ForwardEnds(n, ending) => CompletingTold(s.b, n, ending, carries);
      case ReaderAsks => AskingReleasesNothing(s.b);
      case ReaderWakes => AskingReleasesNothing(s.b);
      case _ =>
    }
  }

  lemma AskingReleasesNothing(b: Barrier)
    requires Numbered(b)
    ensures var c := NextEvent(b).0; c == b.(ready := c.ready, handedOut := c.handedOut, changed := c.changed)
  {
    hide SkipGivenUp;
  }

  lemma CallsOnlyEvolve(s: Run, step: Step, carries: string -> bool)
    requires Numbered(s.b) && Enabled(s, step)
    ensures CallsEvolve(s.b, Next(s, step, carries).b)
  {
    hide Complete, Cancel, NextEvent, Accept, Remove;
    match step {
      case CliCancels(id) => CancelEvolves(s.b, id);
      case ForwardEnds(n, ending) => CompletingTold(s.b, n, ending, carries);
      case EventAccepted(ev) => if s.b.handedOut == Some(ev) { AcceptEvolves(s.b); }
      case ReaderAsks => AskingReleasesNothing(s.b);
      case ReaderWakes => AskingReleasesNothing(s.b);
      case _ =>
    }
  }

  lemma CancelEvolves(b: Barrier, id: RequestId)
    requires Numbered(b)
    ensures CallsEvolve(b, Cancel(b, id)) && NothingReleased(b, Cancel(b, id))
  {
    hide Remove;
  }

  lemma AcceptEvolves(b: Barrier)
    requires Numbered(b) && b.handedOut.Some?
    ensures CallsEvolve(b, Accept(b))
  {
  }

  /** A tool is forwarded only in the accept of its own handed-out, not given-up call, with the
      parameters of that call, and never a second time. */
  lemma ForwardOnlyInItsAccept(s: Run, step: Step, carries: string -> bool, t: Run, n: nat)
    requires Numbered(s.b) && Enabled(s, step) && t == Next(s, step, carries)
    requires n !in s.b.forwards && n in t.b.forwards
    requires LogKept(s) && QueueKept(s)
    ensures step == EventAccepted(CallEvent(n)) && s.b.handedOut == Some(CallEvent(n)) && !s.b.stopped
    ensures !s.b.calls[n].GivenUp() && t.b.forwards[n] == s.b.calls[n].params
    ensures Forwarded(n) !in s.log && t.log == s.log + [Accepted(CallEvent(n)), Forwarded(n)]
  {
    if !step.EventAccepted? {
      OtherStepsReleaseNothing(s, step, carries);
    } else {
      assert s.log + [Accepted(CallEvent(n))] + [Forwarded(n)] == s.log + [Accepted(CallEvent(n)), Forwarded(n)];
    }
  }

  /** A call's response resolves with a tool result only in the accept of its own result event, with
      that event's content. */
  lemma ReplyOnlyInItsAccept(s: Run, step: Step, carries: string -> bool, t: Run, n: nat)
    requires Numbered(s.b) && Enabled(s, step) && t == Next(s, step, carries)
    requires n < |s.b.calls| <= |t.b.calls| && !ReplyHeld(s.b.calls[n]) && ReplyHeld(t.b.calls[n])
    requires QueueKept(s)
    ensures step == EventAccepted(ResultEvent(n)) && s.b.handedOut == Some(ResultEvent(n)) && !s.b.stopped
    ensures t.b.calls[n].response.answer == Reply(s.b.calls[n].Content())
  {
    if !step.EventAccepted? {
      OtherStepsReleaseNothing(s, step, carries);
    }
  }

  lemma Taken(steps: seq<Step>, step: Step, carries: string -> bool)
    ensures var s := After(steps, carries);
            After(steps + [step], carries) == if Enabled(s, step) then Next(s, step, carries) else s
  {
    hide Inv, Next;
    assert (steps + [step])[..|steps|] == steps;
  }

  /** What a call's identity, cancel and answer are, stays through all later steps. */
  lemma {:induction false} CallsEvolveThrough(steps: seq<Step>, later: seq<Step>, carries: string -> bool)
    ensures CallsEvolve(After(steps, carries).b, After(steps + later, carries).b)
    decreases |later|
  {
    hide Inv, Next;
    if later == [] {
      assert steps + later == steps;
    } else {
      var fewer, step := later[..|later| - 1], later[|later| - 1];
      assert steps + later == (steps + fewer) + [step];
      CallsEvolveThrough(steps, fewer, carries);
      Taken(steps + fewer, step, carries);
      StepEvolves(After(steps + fewer, carries), step, carries);
    }
  }

  lemma StepEvolves(s: Run, step: Step, carries: string -> bool)
    requires Inv(s)
    ensures Enabled(s, step) ==> CallsEvolve(s.b, Next(s, step, carries).b)
  {
    if Enabled(s, step) {
      CallsOnlyEvolve(s, step, carries);
    }
  }

  /** An explicit cancel of a pending call always wins: whatever happened before and happens after,
      its `call()` can only return Unanswered, or leave by its task's own cancellation. */
  lemma CancelWins(steps: seq<Step>, later: seq<Step>, carries: string -> bool, id: RequestId)
    requires PendingWith(After(steps, carries).b, id).Some?
    ensures var n := PendingWith(After(steps, carries).b, id).value;
            var b := After(steps + [CliCancels(id)] + later, carries).b;
            && n < |b.calls| && !b.calls[n].response.Waiting?
            && Returned(b.calls[n], true) == None
            && (Returned(b.calls[n], false) == Some(Unanswered) || Returned(b.calls[n], false) == None)
  {
    hide Inv;
    Taken(steps, CliCancels(id), carries);
    CallsEvolveThrough(steps + [CliCancels(id)], later, carries);
    CancelSettles(After(steps, carries).b, id);
  }

  lemma CancelSettles(b: Barrier, id: RequestId)
    requires Numbered(b) && PendingWith(b, id).Some?
    ensures var n := PendingWith(b, id).value;
            var call := Cancel(b, id).calls[n];
            |Cancel(b, id).calls| == |b.calls| && call.cancelledByCli && !call.response.Waiting?
  {
  }

  /** After the stop nothing more is forwarded or replied: every admitted call already has its
      answer, and no later step starts a forward or releases a reply. */
  lemma NothingAfterTheStop(s: Run, step: Step, carries: string -> bool)
    requires Numbered(s.b) && Enabled(s, step) && s.b.stopped
    requires QueueKept(s) && CallsKept(s)
    ensures forall n :: 0 <= n < |s.b.calls| ==> !s.b.calls[n].response.Waiting?
    ensures NothingReleased(s.b, Next(s, step, carries).b)
    ensures Next(s, step, carries).b.stopped
  {
    if !step.EventAccepted? {
      OtherStepsReleaseNothing(s, step, carries);
      CallsOnlyEvolve(s, step, carries);
    }
  }

  /** `has_ready_event` holds exactly when a `next_event` of a usable barrier would not wait. */
  lemma ReadyMeansNoWait(b: Barrier)
    requires Numbered(b) && !b.stopped && b.handedOut.None?
    ensures HasReadyEvent(b) <==> !NextEvent(b).1.MustWait?
  {
  }

  /** A parked reader never misses what became ready, nor the stop: it is due to wake, and once
      awake it does not wait again. */
  lemma NoWakeUpIsLost(steps: seq<Step>, carries: string -> bool)
    requires var s := After(steps, carries); s.parked && (HasReadyEvent(s.b) || s.b.stopped)
    ensures var s := After(steps, carries);
            Enabled(s, ReaderWakes) && !Next(s, ReaderWakes, carries).parked
  {
    var s := After(steps, carries);
    assert ReaderKept(s);
    if !s.b.stopped {
      ReadyMeansNoWait(s.b);
    }
  }
}
