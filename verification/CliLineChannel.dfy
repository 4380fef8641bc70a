/** The bounded channel of stdout lines (src/agent_runtime/process.py:204-272): one method per hold of its
    condition, with logs of what was sent and received. */
module CliLineChannels {
  import opened Wire
  import opened CliLines

  datatype Reason =
    | SpawnFailed | DeadlineBeforeSpawn | DeadlineWhileWriting | DeadlineWhileReading | IoError
    | OutputLimitReached | OutputChannelFull | Cancelled | CleanupOverran | Complete

  datatype Outcome = Outcome(complete: bool, reason: Reason)

  datatype Received = Line(line: Bytes) | Ended(outcome: Outcome) | TimedOut | KeepWaiting

  predicate RunnerTimeout(reason: Reason) {
    reason.DeadlineBeforeSpawn? || reason.CleanupOverran?
  }

  class CliLineChannel {
    const maximumLines: nat
    var lines: seq<Bytes>
    var outcome: Option<Outcome>
    var abortRequested: bool
    ghost var sent: seq<Bytes>
    ghost var received: seq<Bytes>
    ghost var cleared: bool

    /** Receivers get a first-in-first-out prefix of what was sent: all of it, unless the lines that were
        waiting were thrown away by an abort or an incomplete outcome, after which none comes. */
    ghost predicate Valid()
      reads this
    {
      && |lines| <= maximumLines
      && received + lines <= sent
      && (!cleared ==> received + lines == sent)
      && (cleared ==> lines == [] && (abortRequested || outcome.Some?))
      && (outcome.Some? && !outcome.value.complete ==> lines == [])
    }

    constructor (maximumLines: nat)
      requires maximumLines >= 1
      ensures Valid() && this.maximumLines == maximumLines
      ensures sent == [] && received == [] && outcome.None? && !abortRequested && !cleared
    {
      this.maximumLines := maximumLines;
      lines, outcome, abortRequested := [], None, false;
      sent, received, cleared := [], [], false;
    }

    /** The first region of an abort: from here on no line is taken in, but waiting ones may still be received. */
    method RequestAbort()
      requires Valid()
      modifies this`abortRequested
      ensures Valid() && abortRequested
    {
      abortRequested := true;
    }

    /** The second one discards the lines that wait. */
    method DropLines()
      requires Valid() && abortRequested
      modifies this`lines, this`cleared
      ensures Valid() && lines == [] && cleared
    {
      assert received <= sent;
      lines, cleared := [], true;
    }

    /** What a receiver finds at one look: a waiting line comes before the outcome, and the outcome
        before any timeout. */
    method Look(now: real, giveUpAt: Option<real>, settleBy: Option<real>) returns (found: Received)
      requires Valid()
      modifies this
      ensures Valid() && sent == old(sent)
      ensures old(lines) != [] ==> found == Line(old(lines)[0]) && lines == old(lines)[1..]
                                   && received == old(received) + [old(lines)[0]]
                                   && outcome == old(outcome) && abortRequested == old(abortRequested)
      ensures old(lines) == [] ==> received == old(received) && lines == []
      ensures old(lines) == [] && old(outcome).Some? ==>
                found == Ended(old(outcome).value) && outcome == old(outcome) && abortRequested == old(abortRequested)
      ensures old(outcome).Some? && old(outcome).value.complete && !old(cleared) && found.Ended? ==> received == sent
      ensures old(lines) == [] && old(outcome).None? ==>
                if settleBy.Some? && now >= settleBy.value then
                  found == Ended(Outcome(false, CleanupOverran)) && outcome == Some(Outcome(false, CleanupOverran)) && abortRequested
                else
                  outcome.None? && abortRequested == old(abortRequested) && found == if giveUpAt.Some? && now >= giveUpAt.value then TimedOut else KeepWaiting
    {
      if lines != [] {
        found := Line(lines[0]);
        assert received + lines == (received + [lines[0]]) + lines[1..];
        received := received + [lines[0]];
        lines := lines[1..];
        return;
      }
      if outcome.Some? {
        return Ended(outcome.value);
      }
      if settleBy.Some? && now >= settleBy.value {
        var first := Terminate(Outcome(false, CleanupOverran));
        return Ended(first);
      }
      found := if giveUpAt.Some? && now >= giveUpAt.value then TimedOut else KeepWaiting;
    }

    /** Takes a line in, unless the run is over, aborted or too far ahead of its receiver. */
    method Send(line: Bytes) returns (taken: bool)
      requires Valid()
      modifies this
      ensures Valid() && outcome == old(outcome) && abortRequested == old(abortRequested) && received == old(received)
      ensures taken <==> old(outcome).None? && !old(abortRequested) && |old(lines)| < maximumLines
      ensures sent == if taken then old(sent) + [line] else old(sent)
      ensures lines == if taken then old(lines) + [line] else old(lines)
    {
      if outcome.Some? || abortRequested || |lines| >= maximumLines {
        return false;
      }
      assert received + (lines + [line]) == (received + lines) + [line];
      lines, sent := lines + [line], sent + [line];
      taken := true;
    }

    /** The first outcome wins; every later one is answered with it. */
    method Terminate(o: Outcome) returns (first: Outcome)
      requires Valid()
      modifies this
      ensures Valid() && sent == old(sent) && received == old(received)
      ensures outcome == Some(first) && first == if old(outcome).Some? then old(outcome).value else o
      ensures old(outcome).Some? ==> lines == old(lines) && abortRequested == old(abortRequested)
      ensures old(outcome).None? ==>
                && abortRequested == (old(abortRequested) || RunnerTimeout(o.reason))
                && lines == if o.complete then old(lines) else []
    {
      if outcome.None? {
        if !o.complete {
          assert received <= sent;
          lines, cleared := [], true;
        }
        outcome := Some(o);
        if RunnerTimeout(o.reason) {
          abortRequested := true;
        }
      }
      first := outcome.value;
    }
  }
}
