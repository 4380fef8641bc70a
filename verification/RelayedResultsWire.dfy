/** A relayed tool result from the app's tool to the client: the frame that tells it says what the tool returned. */
module RelayedResultsWire {
  import opened Wire
  import opened ToolBarrier
  import opened ToolBarrierProperties
  import opened ToolBarrierResults
  import opened ToolBarrierWire
  import RunStreams
  import W = WireRuns
  import F = RunEventFrames

  /** The event the barrier hands out for a result, as the run's event source yields it. */
  function ResultOf(b: Barrier, n: nat): W.TurnEvent
    requires n < |b.calls|
  {
    W.ResultEvent(ToolUseIdOf(n), b.calls[n].Content().content, b.calls[n].Content().isError)
  }

  /** Whatever the interleaving at the barrier, and however much later the frame is written: a result's frame carries the
      minted id of its call and exactly the text and the error flag that the forward of that call ended with: what the
      app's tool returned, the failure's text as an error, or the given-up text of a call that never ran. */
  lemma TheFrameSaysWhatTheToolReturned(steps: seq<Step>, later: seq<Step>, carries: string -> bool, n: nat,
                                        w: W.Writer, t: RunStreams.Trace, encode: W.Encoder)
    requires Given(ResultEvent(n)) in After(steps, carries).log && n < |After(steps + later, carries).b.calls|
    requires W.Wrote(w, t, encode) && w.decided.None? && t != []
    requires W.FrameFor(w, W.RunnerYielded(ResultOf(After(steps + later, carries).b, n)), encode).1.Some?
    ensures var s := After(steps, carries);
            var frame := W.FrameFor(w, W.RunnerYielded(ResultOf(After(steps + later, carries).b, n)), encode).1.value;
            && frame.runId == w.runId && frame.seqNo == |t|
            && frame.body.ToolResult? && frame.body.resultId == ToolUseIdOf(n)
            && (Forwarded(n) in s.log ==>
                 n in Endings(steps, carries)
                 && Leaves(Endings(steps, carries)[n], carries, Some(Outcome(frame.body.content, frame.body.isError))))
            && (Forwarded(n) !in s.log ==> frame.body.content == CALL_GIVEN_UP_TEXT && frame.body.isError)
  {
    hide Inv, After, Endings, Leaves, W.Wrote, W.FrameFor, F.Says, F.Hinders;
    TheResultIsWhatTheForwardEndedWith(steps, later, carries, n);
    var event := ResultOf(After(steps + later, carries).b, n);
    TheFrameIsTheResult(w, t, event, encode);
  }

  lemma TheFrameIsTheResult(w: W.Writer, t: RunStreams.Trace, event: W.TurnEvent, encode: W.Encoder)
    requires W.Wrote(w, t, encode) && w.decided.None? && t != [] && event.ResultEvent?
    requires W.FrameFor(w, W.RunnerYielded(event), encode).1.Some?
    ensures var frame := W.FrameFor(w, W.RunnerYielded(event), encode).1.value;
            frame == Event(w.runId, |t|, ToolResult(event.resultId, event.content, event.isError))
  {
    hide W.Wrote, W.FrameFor, F.Hinders;
    F.WhatIsNotSentDecidesTheEnd(w, t, W.RunnerYielded(event), encode);
    F.EveryEventIsOneOfFour(w.effects, event);
    var body :| F.Says(w.effects, event, body);
    F.SomethingHinders(w, t, Event(w.runId, |t|, body), encode);
    var h :| F.Hinders(w, t, Event(w.runId, |t|, body), encode, h);
    F.AnEventGoesOutOrDecidesItsFailure(w, t, event, body, encode, h);
  }
}
