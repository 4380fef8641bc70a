/** From the supervisor to the decoder: what a client reads of a supervised run. */
module SupervisedWire {
  import opened Wire
  import opened RunStreams
  import opened WireRuns
  import Supervision
  import Properties = SupervisionProperties
  import opened Utf8
  import Sse
  import opened SseRoundTrip

  /** The writer sizes an event with the same frame the wire carries. */
  ghost predicate SizesTheFrames(c: Supervision.Config, codec: Sse.Codec) {
    forall e: RunEvent ::
      c.encode(e) == match Encode(codec, e) case None => None case Some(frame) => Some(|frame|)
  }

  /** However the frames a client took are cut into chunks, its decoder returns exactly the events it
      took and no violation; it closes quietly exactly when the run ended, and then it has read every
      event the service accepted. */
  lemma TheClientReadsTheRun(c: Supervision.Config, codec: Sse.Codec, s: Supervision.Run,
                             steps: seq<Supervision.Step>, chunks: seq<seq<Byte>>)
    requires Sound(codec) && SizesTheFrames(c, codec)
    requires Properties.Begins(c, s) && Properties.Possible(c, s, steps)
    requires Sse.Concat(chunks) == Written(codec, Properties.After(c, s, steps).taken)
    ensures var t := Properties.After(c, s, steps);
            var (d, items) := Sse.RunChunks(codec, Sse.START, chunks);
            && items == Items(t.taken)
            && d.Open?
            && (Sse.CloseItems(d) == [] <==> Ended(t.taken))
            && (Sse.CloseItems(d) == [] ==> t.taken == t.sent)
  {
    var t := Properties.After(c, s, steps);
    Properties.TheClientGetsAPrefixOfTheRun(c, s, steps);
    EveryFrameFits(c, codec, s, steps);
    AcceptedIsTheRunLanguage(t.taken);
    hide Sound, SizesTheFrames, AllFit, Sse.RunChunks;
    AcceptedRunsSurviveTheWire(codec, t.taken, chunks);
  }

  lemma EveryFrameFits(c: Supervision.Config, codec: Sse.Codec, s: Supervision.Run, steps: seq<Supervision.Step>)
    requires SizesTheFrames(c, codec)
    requires Properties.Begins(c, s) && Properties.Possible(c, s, steps)
    ensures AllFit(codec, Properties.After(c, s, steps).taken)
  {
    var t := Properties.After(c, s, steps);
    Properties.BeginningKeeps(c, s);
    Properties.RunsKeepTheInvariant(c, s, steps);
    Properties.TheClientGetsAPrefixOfTheRun(c, s, steps);
    forall i | 0 <= i < |t.taken| ensures Encode(codec, t.taken[i]).Some? {
      assert t.taken[i] == t.sent[i] && t.sent[i] in t.sent;
      assert c.encode(t.sent[i]).Some?;
    }
  }
}
