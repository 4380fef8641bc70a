/** The barrier as its source writes it: pending calls that are objects, fields updated in place. Each
    await-free region is one method, tied to the step it is in module ToolBarrier, so that every
    object of this class is always in a state that module's invariant describes. */
module ToolCallBarriers {
  import opened Wire
  import opened ToolBarrier

  class PendingCall {
    const number: nat
    const requestId: RequestId
    const params: Params
    var response: Response
    var cancelledByCli: bool
    var outcome: Option<Outcome>
    ghost var ended: bool

    constructor (number: nat, requestId: RequestId, params: Params)
      ensures this.number == number && Record() == Call(requestId, params, Waiting, false, None, false)
    {
      this.number, this.requestId, this.params := number, requestId, params;
      response, cancelledByCli, outcome, ended := Waiting, false, None, false;
    }

    ghost function Record(): Call
      reads this
    {
      Call(requestId, params, response, cancelledByCli, outcome, ended)
    }

    method GivenUp() returns (givenUp: bool)
      ensures givenUp == Record().GivenUp()
    {
      givenUp := cancelledByCli || response.TaskCancelled? || response == Resolved(Unanswered);
    }

    method CancelTask()
      modifies this`response
      ensures Record() == if old(Record()).response.Waiting?
                          then old(Record()).(response := TaskCancelled) else old(Record())
    {
      if response.Waiting? {
        response := TaskCancelled;
      }
    }

    method Resolve(answer: Answer)
      modifies this`response
      ensures Record() == if old(Record()).response.Waiting?
                          then old(Record()).(response := Resolved(answer)) else old(Record())
    {
      if response.Waiting? {
        response := Resolved(answer);
      }
    }

    method GiveUp()
      modifies this`response, this`cancelledByCli
      ensures Record() == GivenUpCall(old(Record()))
    {
      cancelledByCli := true;
      Resolve(Unanswered);
    }
  }

  /** A call its CLI gave up: what awaits its answer learns that there is none. */
  function GivenUpCall(c: Call): Call {
    var cancelled := c.(cancelledByCli := true);
    if c.response.Waiting? then cancelled.(response := Resolved(Unanswered)) else cancelled
  }

  /** A queued event: the call's own (`result` is None) or its result's, with the result's content. */
  datatype ReadyEvent = ReadyEvent(pending: PendingCall, result: Option<Outcome>)
  {
    function Key(): RelayEvent {
      if result.None? then CallEvent(pending.number) else ResultEvent(pending.number)
    }
  }

  datatype Forward = Forward(pending: PendingCall, params: Params)

  function Numbers(calls: seq<PendingCall>): (r: seq<nat>)
    ensures |r| == |calls| && forall i :: 0 <= i < |r| ==> r[i] == calls[i].number
  {
    seq(|calls|, i requires 0 <= i < |calls| => calls[i].number)
  }

  function Keys(ready: seq<ReadyEvent>): (r: seq<RelayEvent>)
    ensures |r| == |ready| && forall i :: 0 <= i < |r| ==> r[i] == ready[i].Key()
  {
    seq(|ready|, i requires 0 <= i < |ready| => ready[i].Key())
  }

  ghost function Records(calls: seq<PendingCall>): (r: seq<Call>)
    reads calls
    ensures |r| == |calls| && forall i :: 0 <= i < |r| ==> r[i] == calls[i].Record()
  {
    seq(|calls|, i requires 0 <= i < |calls| reads calls => calls[i].Record())
  }

  ghost predicate KnownIn(calls: seq<PendingCall>, p: PendingCall) {
    p.number < |calls| && calls[p.number] == p
  }

  /** Every reference is to a minted call, and call `n` is the one numbered `n`. */
  ghost predicate LinkedTo(calls: seq<PendingCall>, pending: seq<PendingCall>, ready: seq<ReadyEvent>,
                           handedOut: Option<ReadyEvent>, forwards: map<nat, Forward>)
  {
    && (forall i :: 0 <= i < |calls| ==> calls[i].number == i)
    && (forall i :: 0 <= i < |pending| ==> KnownIn(calls, pending[i]))
    && (forall i :: 0 <= i < |ready| ==> KnownIn(calls, ready[i].pending))
    && (handedOut.Some? ==> KnownIn(calls, handedOut.value.pending))
    && (forall n :: n in forwards ==> forwards[n].pending.number == n && KnownIn(calls, forwards[n].pending))
  }

  lemma MintedIsLinked(calls: seq<PendingCall>, pending: seq<PendingCall>, ready: seq<ReadyEvent>,
                       handedOut: Option<ReadyEvent>, forwards: map<nat, Forward>, p: PendingCall)
    requires LinkedTo(calls, pending, ready, handedOut, forwards) && p.number == |calls|
    ensures LinkedTo(calls + [p], pending + [p], ready + [ReadyEvent(p, None)], handedOut, forwards)
  {
  }

  lemma LinkedFewer(calls: seq<PendingCall>, pending: seq<PendingCall>, ready: seq<ReadyEvent>,
                    handedOut: Option<ReadyEvent>, forwards: map<nat, Forward>, ready': seq<ReadyEvent>,
                    handedOut': Option<ReadyEvent>)
    requires LinkedTo(calls, pending, ready, handedOut, forwards)
    requires forall i :: 0 <= i < |ready'| ==> ready'[i] in ready
    requires handedOut'.Some? ==> handedOut' == handedOut || handedOut'.value in ready
    ensures LinkedTo(calls, pending, ready', handedOut', forwards)
    ensures handedOut'.Some? ==> KnownIn(calls, handedOut'.value.pending)
  {
    assert forall r :: r in ready ==> KnownIn(calls, r.pending);
  }

  lemma LinkedAt(calls: seq<PendingCall>, pending: seq<PendingCall>, ready: seq<ReadyEvent>,
                 handedOut: Option<ReadyEvent>, forwards: map<nat, Forward>, i: nat)
    requires LinkedTo(calls, pending, ready, handedOut, forwards) && i < |ready|
    ensures KnownIn(calls, ready[i].pending)
  {
  }

  lemma HandedOutIsLinked(calls: seq<PendingCall>, pending: seq<PendingCall>, ready: seq<ReadyEvent>,
                          forwards: map<nat, Forward>, r: ReadyEvent)
    requires LinkedTo(calls, pending, ready, None, forwards) && KnownIn(calls, r.pending)
    ensures LinkedTo(calls, pending, ready, Some(r), forwards)
  {
  }

  lemma BegunIsLinked(calls: seq<PendingCall>, pending: seq<PendingCall>, ready: seq<ReadyEvent>,
                      out: ReadyEvent, forwards: map<nat, Forward>)
    requires LinkedTo(calls, pending, ready, Some(out), forwards)
    ensures KnownIn(calls, out.pending)
    ensures forall content :: LinkedTo(calls, pending, [ReadyEvent(out.pending, Some(content))] + ready, None, forwards)
    ensures forall params ::
              LinkedTo(calls, pending, ready, None, forwards[out.pending.number := Forward(out.pending, params)])
  {
  }

  lemma ForwardIsLinked(calls: seq<PendingCall>, pending: seq<PendingCall>, ready: seq<ReadyEvent>,
                        handedOut: Option<ReadyEvent>, forwards: map<nat, Forward>, n: nat)
    requires LinkedTo(calls, pending, ready, handedOut, forwards) && n in forwards
    ensures forwards[n].pending.number == n && KnownIn(calls, forwards[n].pending)
    ensures LinkedTo(calls, pending, ready, handedOut, forwards - {n})
  {
  }

  lemma QueuedIsLinked(calls: seq<PendingCall>, pending: seq<PendingCall>, ready: seq<ReadyEvent>,
                       handedOut: Option<ReadyEvent>, forwards: map<nat, Forward>, p: PendingCall, outcome: Outcome)
    requires LinkedTo(calls, pending, ready, handedOut, forwards) && KnownIn(calls, p)
    ensures LinkedTo(calls, pending, ready + [ReadyEvent(p, Some(outcome))], handedOut, forwards)
  {
  }

  /** A result event carries its call's one content. */
  ghost predicate ContentKept(r: ReadyEvent, calls: seq<Call>) {
    r.result.Some? ==> r.pending.number < |calls| && r.result.value == calls[r.pending.number].Content()
  }

  ghost predicate AllContentsKept(ready: seq<ReadyEvent>, handedOut: Option<ReadyEvent>, calls: seq<Call>) {
    && (forall i :: 0 <= i < |ready| ==> ContentKept(ready[i], calls))
    && (handedOut.Some? ==> ContentKept(handedOut.value, calls))
  }

  /** No outcome changed: whatever is still queued or handed out keeps its content. */
  lemma ContentsSurvive(ready: seq<ReadyEvent>, handedOut: Option<ReadyEvent>, calls: seq<Call>,
                        ready': seq<ReadyEvent>, handedOut': Option<ReadyEvent>, calls': seq<Call>)
    requires AllContentsKept(ready, handedOut, calls) && |calls| <= |calls'|
    requires forall n :: 0 <= n < |calls| ==> calls'[n].outcome == calls[n].outcome
    requires forall i :: 0 <= i < |ready'| ==>
               ready'[i].result.None? || ready'[i] in ready || ContentKept(ready'[i], calls')
    requires handedOut'.Some? ==> handedOut' == handedOut || handedOut'.value in ready
    ensures AllContentsKept(ready', handedOut', calls')
  {
    assert forall r :: r in ready ==> ContentKept(r, calls);
  }

  /** One call changed, but not its outcome. */
  lemma ContentsSurviveAt(ready: seq<ReadyEvent>, handedOut: Option<ReadyEvent>, calls: seq<Call>, n: nat, c: Call,
                          ready': seq<ReadyEvent>)
    requires AllContentsKept(ready, handedOut, calls) && n < |calls| && c.outcome == calls[n].outcome
    requires forall i :: 0 <= i < |ready'| ==> ready'[i] in ready
    ensures AllContentsKept(ready', handedOut, calls[n := c])
  {
    assert forall r :: r in ready ==> ContentKept(r, calls);
  }

  /** Only the outcome of `p`, whose result is nowhere yet, changed. */
  lemma ContentsChangeAt(ready: seq<ReadyEvent>, handedOut: Option<ReadyEvent>, calls: seq<Call>,
                         p: PendingCall, outcome: Outcome, calls': seq<Call>)
    requires AllContentsKept(ready, handedOut, calls) && p.number < |calls| == |calls'|
    requires forall n :: 0 <= n < |calls| && n != p.number ==> calls'[n].outcome == calls[n].outcome
    requires calls'[p.number].outcome == Some(outcome)
    requires ResultEvent(p.number) !in Keys(ready)
    requires handedOut.Some? ==> handedOut.value.Key() != ResultEvent(p.number)
    ensures AllContentsKept(ready + [ReadyEvent(p, Some(outcome))], handedOut, calls')
  {
    forall i | 0 <= i < |ready| ensures ContentKept(ready[i], calls') {
      assert Keys(ready)[i] != ResultEvent(p.number);
    }
  }

  lemma GivenUpIsResolved(b: Barrier, n: nat)
    requires n < |b.calls|
    ensures ToolBarrier.Resolve(b.(calls := b.calls[n := b.calls[n].(cancelledByCli := true)]), n, Unanswered)
            == b.(calls := b.calls[n := GivenUpCall(b.calls[n])])
  {
    assert b.calls[n := b.calls[n].(cancelledByCli := true)][n := GivenUpCall(b.calls[n])]
           == b.calls[n := GivenUpCall(b.calls[n])];
  }

  class ToolCallBarrier {
    const carries: string -> bool
    ghost var calls: seq<PendingCall>
    ghost var run: Run
    var minted: nat
    var pending: seq<PendingCall>
    var ready: seq<ReadyEvent>
    var handedOut: Option<ReadyEvent>
    var forwards: map<nat, Forward>
    var changed: bool
    var stopped: bool
    var unoffered: bool
    var reflected: bool

    ghost function View(): Barrier
      reads this, calls
    {
      Barrier(Records(calls), Numbers(pending), Keys(ready),
              if handedOut.None? then None else Some(handedOut.value.Key()),
              map n | n in forwards :: forwards[n].params,
              changed, stopped, unoffered, reflected)
    }

    ghost predicate Known(p: PendingCall)
      reads this`calls
    {
      KnownIn(calls, p)
    }

    ghost predicate Linked()
      reads this
    {
      minted == |calls| && LinkedTo(calls, pending, ready, handedOut, forwards)
    }

    ghost predicate Contents()
      reads this, calls
    {
      AllContentsKept(ready, handedOut, View().calls)
    }

    ghost predicate Valid()
      reads this, calls
    {
      Linked() && Contents() && run.b == View() && Inv(run)
    }

    constructor (carries: string -> bool)
      ensures Valid() && run == START && this.carries == carries && calls == []
    {
      this.carries := carries;
      calls, run, minted, pending, ready, handedOut := [], START, 0, [], [], None;
      forwards, changed, stopped, unoffered, reflected := map[], false, false, false, false;
    }


    // -------------------------------------------------------------- helpers

    method PendingWith(id: RequestId) returns (found: Option<PendingCall>)
      requires Linked()
      ensures Numbered(View())
      ensures found.None? <==> ToolBarrier.PendingWith(View(), id).None?
      ensures found.Some? ==> Known(found.value)
                              && ToolBarrier.PendingWith(View(), id) == Some(found.value.number)
    {
      LinkedIsNumbered();
      ghost var b := View();
      var i := 0;
      while i < |pending|
        invariant 0 <= i <= |pending|
        invariant Numbered(b.(pending := b.pending[i..]))
        invariant ToolBarrier.PendingWith(b, id) == ToolBarrier.PendingWith(b.(pending := b.pending[i..]), id)
      {
        assert b.pending[i..][1..] == b.pending[i + 1..];
        assert b.pending[i..][0] == pending[i].number;
        if pending[i].requestId == id {
          return Some(pending[i]);
        }
        i := i + 1;
      }
      found := None;
    }

    lemma LinkedIsNumbered()
      requires Linked()
      ensures Numbered(View())
    {
      var b := View();
      assert forall n: nat :: n in b.pending ==> exists i :: 0 <= i < |pending| && pending[i].number == n;
      assert forall ev: RelayEvent :: ev in b.ready ==> exists i :: 0 <= i < |ready| && ready[i].Key() == ev;
    }

    method RemovePending(p: PendingCall)
      requires Linked() && Known(p)
      modifies this`pending
      ensures Linked()
      ensures View() == old(View()).(pending := Remove(old(View()).pending, p.number))
    {
      var kept: seq<PendingCall> := [];
      var i := 0;
      while i < |pending|
        invariant 0 <= i <= |pending|
        invariant forall j :: 0 <= j < |kept| ==> Known(kept[j])
        invariant Remove(Numbers(pending), p.number) == Numbers(kept) + Remove(Numbers(pending)[i..], p.number)
      {
        assert Numbers(pending)[i..][1..] == Numbers(pending)[i + 1..];
        assert Known(pending[i]);
        if pending[i] != p {
          assert Numbers(kept + [pending[i]]) == Numbers(kept) + [pending[i].number];
          kept := kept + [pending[i]];
        }
        i := i + 1;
      }
      pending := kept;
    }

    method QueueWithout(p: PendingCall) returns (kept: seq<ReadyEvent>)
      requires Linked() && Known(p)
      ensures Keys(kept) == Remove(Keys(ready), CallEvent(p.number))
      ensures forall i :: 0 <= i < |kept| ==> kept[i] in ready
    {
      hide LinkedTo;
      var call := CallEvent(p.number);
      kept := [];
      var i := 0;
      while i < |ready|
        invariant 0 <= i <= |ready|
        invariant forall j :: 0 <= j < |kept| ==> kept[j] in ready
        invariant Remove(Keys(ready), call) == Keys(kept) + Remove(Keys(ready)[i..], call)
      {
        assert Keys(ready)[i..][1..] == Keys(ready)[i + 1..];
        LinkedAt(calls, pending, ready, handedOut, forwards, i);
        if ready[i].pending != p || ready[i].result.Some? {
          assert Keys(kept + [ready[i]]) == Keys(kept) + [ready[i].Key()];
          kept := kept + [ready[i]];
        }
        i := i + 1;
      }
    }

    method DropQueuedCall(p: PendingCall)
      requires Linked() && Known(p)
      modifies this`ready
      ensures Linked()
      ensures View() == old(View()).(ready := Remove(old(View()).ready, CallEvent(p.number)))
      ensures forall i :: 0 <= i < |ready| ==> ready[i] in old(ready)
    {
      hide LinkedTo, Remove, Keys;
      var kept := QueueWithout(p);
      LinkedFewer(calls, pending, ready, handedOut, forwards, kept, handedOut);
      ready := kept;
    }

    /** Resolving one call's future changes one record. */
    method Resolve(p: PendingCall, answer: Answer)
      requires Linked() && Known(p)
      modifies p`response
      ensures Linked()
      ensures View() == ToolBarrier.Resolve(old(View()), p.number, answer)
    {
      p.Resolve(answer);
      assert Records(calls) == old(Records(calls))[p.number := p.Record()];
    }

    /** The run takes the step the fields just took. */
    ghost method Take(step: Step)
      requires Linked() && Contents() && Inv(run) && Enabled(run, step)
      requires View() == Next(run, step, carries).b
      modifies this`run
      ensures Valid() && run == Next(old(run), step, carries) && View() == old(View())
    {
      EveryStepKeepsTheInvariant(run, step, carries);
      run := Next(run, step, carries);
    }

    lemma NumbersAreIndices()
      requires Linked()
      ensures forall i :: 0 <= i < |calls| ==> calls[i].number == i
    {
    }

    // -------------------------------------------------------------- the steps

    /** The region of `call()` up to its wait; None is the refusal before admission. */
    method Call(id: RequestId, params: Params) returns (admitted: Option<PendingCall>)
      requires Valid()
      modifies this
      ensures Valid() && run == Next(old(run), CallArrives(id, params), carries)
      ensures Numbered(old(View())) && (admitted.Some? <==> Admits(old(View()), id))
      ensures admitted.Some? ==> Known(admitted.value) && admitted.value.number == |old(calls)|
    {
      hide Inv;
      var known := PendingWith(id);
      if stopped || |pending| >= MAX_PENDING_TOOL_CALLS || known.Some? {
        Take(CallArrives(id, params));
        return None;
      }
      var p := Admit(id, params);
      Take(CallArrives(id, params));
      admitted := Some(p);
    }

    method Admit(id: RequestId, params: Params) returns (p: PendingCall)
      requires Linked() && Contents()
      modifies this
      ensures Linked() && Contents() && View() == ToolBarrier.Admit(old(View()), id, params)
      ensures run == old(run)
      ensures fresh(p) && calls == old(calls) + [p] && p.number == |old(calls)|
    {
      hide AllContentsKept, LinkedTo;
      ghost var before := View();
      p := new PendingCall(minted, id, params);
      MintedIsLinked(calls, pending, ready, handedOut, forwards, p);
      minted := minted + 1;
      calls := calls + [p];
      pending := pending + [p];
      ready := ready + [ReadyEvent(p, None)];
      changed := true;
      assert Records(calls) == old(Records(calls)) + [p.Record()];
      ContentsSurvive(old(ready), handedOut, before.calls, ready, handedOut, View().calls);
      assert Keys(ready) == old(Keys(ready)) + [CallEvent(p.number)];
    }

    method Unoffered()
      requires Valid()
      modifies this
      ensures Valid() && run == Next(old(run), UnofferedToolCalled, carries)
    {
      hide Inv;
      unoffered := true;
      changed := true;
      Take(UnofferedToolCalled);
    }

    method Reflected()
      requires Valid()
      modifies this
      ensures Valid() && run == Next(old(run), AnswerReflected, carries)
    {
      hide Inv;
      reflected := true;
      changed := true;
      Take(AnswerReflected);
    }

    method HasRunningForward() returns (running: bool)
      requires Linked()
      ensures running == ToolBarrier.HasRunningForward(View())
    {
      running := forwards != map[];
      assert View().forwards.Keys == forwards.Keys;
    }

    method HasReadyEvent() returns (ready': bool)
      requires Linked()
      ensures Numbered(View()) && ready' == ToolBarrier.HasReadyEvent(View())
    {
      LinkedIsNumbered();
      if unoffered || reflected {
        return true;
      }
      var i := 0;
      while i < |ready|
        invariant 0 <= i <= |ready|
        invariant forall j :: 0 <= j < i ==> !Waits(View(), View().ready[j])
      {
        var givenUp := ready[i].pending.GivenUp();
        assert Known(ready[i].pending);
        if ready[i].result.Some? || !givenUp {
          assert View().ready[i] in View().ready;
          return true;
        }
        i := i + 1;
      }
      ready' := false;
    }

    /** The cancellation of the task that runs `call()` of `p`, seen by the future it awaits. */
    method CancelTask(p: PendingCall)
      requires Valid() && Known(p) && !p.ended
      modifies this, p`response
      ensures Valid() && run == Next(old(run), CallTaskCancelled(p.number), carries)
    {
      hide Inv, LinkedTo, AllContentsKept;
      ghost var before := View();
      NumbersAreIndices();
      p.CancelTask();
      assert Records(calls) == old(Records(calls))[p.number := p.Record()];
      ContentsSurvive(ready, handedOut, before.calls, ready, handedOut, View().calls);
      Take(CallTaskCancelled(p.number));
    }

    method MarkEnded(p: PendingCall)
      requires Linked() && Known(p)
      modifies p`ended
      ensures Linked()
      ensures var b := old(View()); View() == b.(calls := b.calls[p.number := b.calls[p.number].(ended := true)])
    {
      hide LinkedTo;
      p.ended := true;
      assert Records(calls) == old(Records(calls))[p.number := p.Record()] by { NumbersAreIndices(); }
    }

    method EndCall(p: PendingCall)
      requires Linked() && Contents() && Known(p)
      modifies this`pending, this`ready, p`ended
      ensures Linked() && Contents() && View() == End(old(View()), p.number)
    {
      hide LinkedTo, AllContentsKept, Remove;
      ghost var before, queued := View(), ready;
      RemovePending(p);
      DropQueuedCall(p);
      MarkEnded(p);
      ContentsSurviveAt(queued, handedOut, before.calls, p.number, View().calls[p.number], ready);
    }

    /** `call()` of `p` resumes: None when its task's cancellation leaves it, be it a late one. */
    method Returns(p: PendingCall, late: bool) returns (answer: Option<Answer>)
      requires Valid() && Known(p) && !p.ended && !p.response.Waiting?
      modifies this, p`ended
      ensures Valid() && run == Next(old(run), CallReturns(p.number), carries)
      ensures answer == Returned(old(p.Record()), late)
    {
      hide Inv, LinkedTo, AllContentsKept, End;
      EndCall(p);
      Take(CallReturns(p.number));
      answer := if p.response.TaskCancelled? || late then None
                else if p.cancelledByCli then Some(Unanswered)
                else Some(p.response.answer);
    }

    method CancelPending(id: RequestId)
      requires Linked() && Contents()
      modifies this`pending, this`ready, calls
      ensures Linked() && Contents() && Numbered(old(View()))
      ensures View() == ToolBarrier.Cancel(old(View()), id)
    {
      hide LinkedTo, AllContentsKept, Remove;
      ghost var before, queued := View(), ready;
      var found := PendingWith(id);
      if found.None? {
        return;
      }
      RemovePending(found.value);
      DropQueuedCall(found.value);
      ContentsSurvive(queued, handedOut, before.calls, ready, handedOut, before.calls);
      GiveUp(found.value);
    }

    method GiveUp(p: PendingCall)
      requires Linked() && Contents() && Known(p)
      modifies p`cancelledByCli, p`response
      ensures Linked() && Contents()
      ensures var b := old(View());
              View() == ToolBarrier.Resolve(b.(calls := b.calls[p.number := b.calls[p.number].(cancelledByCli := true)]),
                                            p.number, Unanswered)
    {
      hide LinkedTo, AllContentsKept;
      ghost var before := View();
      p.GiveUp();
      assert Records(calls) == before.calls[p.number := p.Record()] by { NumbersAreIndices(); }
      ContentsSurviveAt(ready, handedOut, before.calls, p.number, p.Record(), ready);
      GivenUpIsResolved(before, p.number);
    }

    method Cancel(id: RequestId)
      requires Valid()
      modifies this, calls
      ensures Valid() && run == Next(old(run), CliCancels(id), carries)
    {
      hide Inv, LinkedTo, AllContentsKept, ToolBarrier.Cancel;
      CancelPending(id);
      Take(CliCancels(id));
    }

    method DropHead()
      requires Linked() && ready != []
      modifies this`ready
      ensures Linked() && ready == old(ready)[1..] && View() == old(View()).(ready := old(View()).ready[1..])
      ensures Known(old(ready)[0].pending) && old(View()).ready[0] == old(ready)[0].Key()
    {
      hide LinkedTo;
      LinkedAt(calls, pending, ready, handedOut, forwards, 0);
      LinkedFewer(calls, pending, ready, handedOut, forwards, ready[1..], handedOut);
      assert Keys(ready[1..]) == Keys(ready)[1..];
      ready := ready[1..];
    }

    method NextReady() returns (found: Option<ReadyEvent>)
      requires Linked()
      modifies this`ready
      ensures Linked() && Numbered(old(View()))
      ensures forall i :: 0 <= i < |ready| ==> ready[i] in old(ready)
      ensures var left := SkipGivenUp(old(View()), old(View()).ready);
              if left == [] then found == None && View() == old(View()).(ready := [])
              else found.Some? && found.value in old(ready) && Known(found.value.pending)
                   && found.value.Key() == left[0] && View() == old(View()).(ready := left[1..])
    {
      hide LinkedTo;
      LinkedIsNumbered();
      ghost var b, queued := View(), ready;
      while |ready| > 0
        invariant Linked() && Numbered(View())
        invariant View() == b.(ready := View().ready)
        invariant forall i :: 0 <= i < |ready| ==> ready[i] in queued
        invariant SkipGivenUp(b, b.ready) == SkipGivenUp(b, View().ready)
        decreases |ready|
      {
        var head := ready[0];
        DropHead();
        LinkedIsNumbered();
        var givenUp := head.pending.GivenUp();
        if head.result.Some? || !givenUp {
          return Some(head);
        }
      }
      found := None;
    }

    method HandOut() returns (asked: Asked)
      requires Linked() && Contents() && Numbered(View())
      modifies this
      ensures Linked() && Contents() && run == old(run) && calls == old(calls)
      ensures (View(), asked) == ToolBarrier.NextEvent(old(View()))
    {
      hide LinkedTo, AllContentsKept;
      if handedOut.Some? {
        return Misused;
      }
      if unoffered {
        return UnofferedCalled;
      }
      if reflected {
        return CapabilityReflected;
      }
      if stopped {
        return Misused;
      }
      ghost var before, queued := View(), ready;
      LinkedFewer(calls, pending, ready, handedOut, forwards, ready, None);
      var found := NextReady();
      if found.Some? {
        HandedOutIsLinked(calls, pending, ready, forwards, found.value);
        handedOut := found;
        asked := HandsOut(found.value.Key());
      } else {
        changed := false;
        asked := MustWait;
      }
      ContentsSurvive(queued, None, before.calls, ready, handedOut, View().calls);
    }

    /** One pass of `next_event()`: by the reader that asks, or by the parked one that woke. */
    method NextEvent() returns (asked: Asked)
      requires Valid() && (run.parked ==> changed)
      modifies this
      ensures Valid() && Numbered(old(View())) && asked == ToolBarrier.NextEvent(old(View())).1
      ensures run == Next(old(run), if old(run.parked) then ReaderWakes else ReaderAsks, carries)
    {
      hide Inv, LinkedTo, AllContentsKept, ToolBarrier.NextEvent;
      LinkedIsNumbered();
      asked := HandOut();
      Take(if run.parked then ReaderWakes else ReaderAsks);
    }

    method Release(p: PendingCall)
      requires Linked() && Contents() && handedOut.Some? && handedOut.value.Key() == ResultEvent(p.number)
      requires p == handedOut.value.pending
      modifies this`handedOut, p`response
      ensures Linked() && Contents() && Numbered(old(View()))
      ensures View() == ToolBarrier.Accept(old(View()))
    {
      hide LinkedTo, AllContentsKept;
      LinkedIsNumbered();
      NumbersAreIndices();
      LinkedFewer(calls, pending, ready, handedOut, forwards, ready, handedOut);
      LinkedFewer(calls, pending, ready, handedOut, forwards, ready, None);
      ghost var before, out := View(), handedOut;
      handedOut := None;
      if p.outcome.Some? {
        p.Resolve(Reply(p.outcome.value));
      }
      assert Records(calls) == old(Records(calls))[p.number := p.Record()];
      ContentsSurvive(ready, out, before.calls, ready, None, View().calls);
    }

    /** A given-up call's result is queued first. */
    method BeginGivenUp(p: PendingCall)
      requires Linked() && Contents() && handedOut.Some? && handedOut.value.Key() == CallEvent(p.number)
      requires p == handedOut.value.pending && p.outcome.None?
      modifies this`handedOut, this`ready
      ensures Linked() && Contents()
      ensures var b := old(View()); View() == b.(handedOut := None, ready := [ResultEvent(p.number)] + b.ready)
    {
      hide LinkedTo, AllContentsKept;
      ghost var before, queued, out := View(), ready, handedOut;
      BegunIsLinked(calls, pending, ready, out.value, forwards);
      handedOut := None;
      ready := [ReadyEvent(p, Some(GIVEN_UP))] + ready;
      assert Keys(ready) == [ResultEvent(p.number)] + Keys(queued);
      ContentsSurvive(queued, out, before.calls, ready, None, View().calls);
    }

    /** Any other call is forwarded. */
    method BeginForward(p: PendingCall)
      requires Linked() && Contents() && handedOut.Some? && handedOut.value.Key() == CallEvent(p.number)
      requires p == handedOut.value.pending
      modifies this`handedOut, this`forwards
      ensures Linked() && Contents()
      ensures var b := old(View()); View() == b.(handedOut := None, forwards := b.forwards[p.number := p.params])
    {
      hide LinkedTo, AllContentsKept;
      ghost var before, out := View(), handedOut;
      BegunIsLinked(calls, pending, ready, out.value, forwards);
      handedOut := None;
      forwards := forwards[p.number := Forward(p, p.params)];
      ContentsSurvive(ready, out, before.calls, ready, None, View().calls);
    }

    /** The accept of a call's own event. */
    method Begin(p: PendingCall)
      requires Linked() && Contents() && handedOut.Some? && handedOut.value.Key() == CallEvent(p.number)
      requires p == handedOut.value.pending && p.outcome.None?
      modifies this`handedOut, this`ready, this`forwards
      ensures Linked() && Contents() && Numbered(old(View()))
      ensures View() == ToolBarrier.Accept(old(View()))
    {
      LinkedIsNumbered();
      BegunIsLinked(calls, pending, ready, handedOut.value, forwards);
      hide LinkedTo, AllContentsKept;
      assert View().calls[p.number] == p.Record();
      var givenUp := p.GivenUp();
      if givenUp {
        BeginGivenUp(p);
      } else {
        BeginForward(p);
      }
    }

    /** Accepts the handed-out event, named by its kind and call; any other raises, which is false. */
    method Accept(ev: RelayEvent) returns (accepted: bool)
      requires Valid()
      modifies this, calls
      ensures Valid() && run == Next(old(run), EventAccepted(ev), carries)
      ensures accepted <==> old(View()).handedOut == Some(ev)
    {
      hide Inv, LinkedTo, AllContentsKept, ToolBarrier.Accept;
      accepted := handedOut.Some? && handedOut.value.Key() == ev;
      if accepted {
        var p := handedOut.value.pending;
        LinkedFewer(calls, pending, ready, handedOut, forwards, ready, handedOut);
        if ev.ResultEvent? {
          Release(p);
        } else {
          UnacceptedHasNoOutcome(run, p.number);
          Begin(p);
        }
      }
      Take(EventAccepted(ev));
    }
    method RefusePending()
      requires Linked() && Contents()
      modifies calls
      ensures Linked() && Contents() && Numbered(old(View()))
      ensures View() == old(View()).(calls := RefuseAll(old(View()).calls, old(View()).pending))
    {
      LinkedIsNumbered();
      PendingAreKnown();
      hide LinkedTo, AllContentsKept;
      ghost var before := View();
      var i := 0;
      while i < |pending|
        invariant 0 <= i <= |pending| && Linked()
        invariant forall n :: n in before.pending[..i] ==> n < |before.calls|
        invariant View() == before.(calls := RefuseAll(before.calls, before.pending[..i]))
      {
        var p := pending[i];
        RefuseNext(before.calls, before.pending, i);
        Resolve(p, Refusal);
        i := i + 1;
      }
      assert before.pending[..i] == before.pending;
      ContentsSurvive(ready, handedOut, before.calls, ready, handedOut, View().calls);
    }

    lemma PendingAreKnown()
      requires Linked()
      ensures forall i :: 0 <= i < |pending| ==> Known(pending[i])
    {
    }

    method Stop()
      requires Valid()
      modifies this, calls
      ensures Valid() && run == Next(old(run), BarrierStops, carries)
    {
      hide Inv, LinkedTo, AllContentsKept;
      RefusePending();
      LinkedFewer(calls, pending, ready, handedOut, forwards, [], None);
      ContentsSurvive(ready, handedOut, View().calls, [], None, View().calls);
      stopped := true;
      ready := [];
      handedOut := None;
      changed := true;
      Take(BarrierStops);
    }

    method QueueResult(p: PendingCall, outcome: Outcome)
      requires Linked() && Contents() && Known(p)
      requires ResultEvent(p.number) !in View().ready && View().handedOut != Some(ResultEvent(p.number))
      modifies this`ready, this`reflected, this`changed, p`outcome, p`response
      ensures Linked() && Contents()
      ensures View() == Queued(old(View()), p.number, outcome, carries)
    {
      hide LinkedTo, AllContentsKept;
      if carries(outcome.content) {
        ResolveForward(p);
        reflected := true;
        changed := true;
      } else {
        AppendResult(p, outcome);
        changed := true;
      }
    }

    method AppendResult(p: PendingCall, outcome: Outcome)
      requires Linked() && Contents() && Known(p)
      requires ResultEvent(p.number) !in View().ready && View().handedOut != Some(ResultEvent(p.number))
      modifies this`ready, p`outcome
      ensures Linked() && Contents()
      ensures var b := old(View());
              View() == b.(calls := b.calls[p.number := b.calls[p.number].(outcome := Some(outcome))],
                           ready := b.ready + [ResultEvent(p.number)])
    {
      NumbersAreIndices();
      hide LinkedTo, AllContentsKept;
      ghost var before, queued := View(), ready;
      QueuedIsLinked(calls, pending, queued, handedOut, forwards, p, outcome);
      p.outcome := Some(outcome);
      ready := ready + [ReadyEvent(p, Some(outcome))];
      assert Records(calls) == old(Records(calls))[p.number := p.Record()];
      assert Keys(ready) == Keys(queued) + [ResultEvent(p.number)];
      ContentsChangeAt(queued, handedOut, before.calls, p, outcome, View().calls);
    }

    /** What the completion callback of a forward does to the fields. */
    method Complete(n: nat, ending: Ending)
      requires Linked() && Contents() && n in forwards
      requires ResultEvent(n) !in View().ready && View().handedOut != Some(ResultEvent(n))
      modifies this`forwards, this`ready, this`reflected, this`changed, calls
      ensures Linked() && Contents() && n < |old(View()).calls|
      ensures View() == ToolBarrier.Complete(old(View()), n, ending, carries)
    {
      hide LinkedTo, AllContentsKept, Queued;
      ghost var before := View();
      var p := forwards[n].pending;
      ForwardIsLinked(calls, pending, ready, handedOut, forwards, n);
      forwards := forwards - {n};
      assert View() == before.(forwards := before.forwards - {n});
      if ending.ForwardCancelled? {
        ResolveForward(p);
      } else {
        QueueResult(p, OutcomeOf(ending));
      }
    }

    /** The one completion of a forward: whatever its outcome, it no longer runs. */
    method Completed(n: nat, ending: Ending)
      requires Numbered(run.b) && Enabled(run, ForwardEnds(n, ending)) && Valid()
      modifies this, calls
      ensures Valid()
      ensures run == Next(old(run), ForwardEnds(n, ending), carries)
    {
      hide Inv, LinkedTo, AllContentsKept, ToolBarrier.Complete, Next;
      ForwardHasNoResultYet(run, n);
      ghost var before := run;
      Complete(n, ending);
      CompletesTheRun(before, n, ending, carries);
      Take(ForwardEnds(n, ending));
    }

    method ResolveForward(p: PendingCall)
      requires Linked() && Contents() && Known(p)
      modifies p`response
      ensures Linked() && Contents() && View() == ToolBarrier.Resolve(old(View()), p.number, Unanswered)
    {
      hide LinkedTo, AllContentsKept;
      ghost var before := View();
      Resolve(p, Unanswered);
      ContentsSurvive(ready, handedOut, before.calls, ready, handedOut, View().calls);
    }
  }

  lemma RefuseNext(calls: seq<Call>, pending: seq<nat>, i: nat)
    requires i < |pending| && forall n :: n in pending ==> n < |calls|
    ensures pending[i] < |calls|
    ensures forall n :: n in pending[..i] ==> n < |calls|
    ensures var next := pending[..i + 1]; forall n :: n in next ==> n < |calls|
    ensures var now, n := RefuseAll(calls, pending[..i]), pending[i];
            RefuseAll(calls, pending[..i + 1]) ==
            if now[n].response.Waiting? then now[n := now[n].(response := Resolved(Refusal))] else now
  {
    assert pending[i] in pending;
    forall n | n in pending[..i] ensures n in pending {
      var j :| 0 <= j < i && pending[..i][j] == n;
      assert pending[j] == n;
    }
    assert pending[..i + 1] == pending[..i] + [pending[i]];
  }

  lemma ForwardHasNoResultYet(s: Run, n: nat)
    requires Inv(s) && n in s.b.forwards
    ensures Numbered(s.b)
    ensures n < |s.b.calls| && ResultEvent(n) !in s.b.ready && s.b.handedOut != Some(ResultEvent(n))
  {
  }

  lemma CompletesTheRun(s: Run, n: nat, ending: Ending, carries: string -> bool)
    requires Numbered(s.b) && n in s.b.forwards
    ensures Next(s, ForwardEnds(n, ending), carries).b == Complete(s.b, n, ending, carries)
  {
  }

  lemma UnacceptedHasNoOutcome(s: Run, n: nat)
    requires Inv(s) && s.b.handedOut == Some(CallEvent(n))
    ensures n < |s.b.calls| && s.b.calls[n].outcome.None?
  {
  }
}