/** The bounded exchange with a CLI as it updates its fields (src/agent_runtime/process.py:834-840 and 1114-1312),
    proved to do what `CliRuns` says. What the child writes stands in the pipes. */
module CliExchanges {
  import opened Wire
  import opened CliLines
  import opened CliLineChannels
  import opened CliRuns

  ghost function ViewOf(channel: CliLineChannel?): Channel
    reads channel
  {
    if channel == null then NoChannel
    else Channel(channel.sent, |channel.lines|, channel.maximumLines, channel.abortRequested, channel.outcome.Some?)
  }

  /** What an ending is answered with. */
  function OutcomeOf(s: State, ending: Ending): Option<Outcome> {
    match ending
    case GoesOn => None
    case Completed => Some(Outcome(true, Complete))
    case FirstLineRead => Some(Outcome(true, Complete))
    case StdoutEnded => Some(Outcome(true, Complete))
    case LimitReached => Some(Outcome(false, OutputLimitReached))
    case Refused(_) => Some(Outcome(false, if s.channel.Channel? && s.channel.aborted then Reason.Cancelled else OutputChannelFull))
    case Aborted => Some(Outcome(false, Reason.Cancelled))
    case Expired => Some(Outcome(false, if s.pendingStdin != [] then DeadlineWhileWriting else DeadlineWhileReading))
    case WriteFailed => Some(Outcome(false, IoError))
    case Broken => Some(Outcome(false, IoError))
  }

  class CliExchange {
    const limit: nat
    const mode: ReadMode
    const channel: CliLineChannel?
    var stdout: Bytes
    var stderr: Bytes
    var pendingStdin: Bytes
    var remainder: Bytes
    var stdoutOpen: bool
    var stderrOpen: bool
    var stdoutPipe: Bytes
    var stderrPipe: Bytes

    ghost predicate Valid()
      reads this, channel
    {
      channel != null ==> channel.Valid()
    }

    ghost function View(): State
      reads this, channel
    {
      State(stdout, stderr, pendingStdin, remainder, stdoutOpen, stderrOpen, stdoutPipe, stderrPipe, ViewOf(channel))
    }

    ghost function Limits(): Bounds {
      Bounds(limit, mode)
    }

    constructor (limit: nat, mode: ReadMode, channel: CliLineChannel?, stdin: Bytes, out: Bytes, err: Bytes)
      requires channel != null ==> channel.Valid()
      ensures Valid() && Limits() == Bounds(limit, mode) && this.channel == channel
      ensures View() == Start(out, err, stdin, ViewOf(channel))
    {
      this.limit, this.mode, this.channel := limit, mode, channel;
      stdout, stderr, pendingStdin, remainder, stdoutOpen, stderrOpen := [], [], stdin, [], true, true;
      stdoutPipe, stderrPipe := out, err;
    }

    method DeliveryFailure() returns (output: Outcome)
      requires channel != null
      ensures output == Outcome(false, if channel.abortRequested then Reason.Cancelled else OutputChannelFull)
    {
      output := Outcome(false, if channel.abortRequested then Reason.Cancelled else OutputChannelFull);
    }

    /** What others do to the channel. */
    method Disturb(move: Move)
      requires Valid()
      modifies channel
      ensures Valid() && View() == old(View()).(channel := Disturbed(old(View()).channel, move))
    {
      if channel != null {
        match move
        case Receives(settled) =>
          var found := channel.Look(0.0, None, if settled then Some(0.0) else None);
        case RequestsAbort => channel.RequestAbort();
        case DropsLines =>
          if channel.abortRequested {
            channel.DropLines();
          }
      }
    }

    method SendLine(line: Bytes) returns (taken: bool)
      requires Valid() && channel != null
      modifies channel
      ensures Valid() && (taken <==> Takes(old(ViewOf(channel))))
      ensures ViewOf(channel) == if taken then Sent(old(ViewOf(channel)), line) else old(ViewOf(channel))
    {
      taken := channel.Send(line);
    }

    /** Others do their next move, if there is one. */
    method LetOthersMove(moves: seq<Move>) returns (later: seq<Move>)
      requires Valid()
      modifies channel
      ensures Valid() && later == Later(moves)
      ensures ViewOf(channel) == Met(old(ViewOf(channel)), moves)
    {
      later := moves;
      if moves != [] {
        Disturb(moves[0]);
        later := moves[1..];
      }
    }

    /** Sends each line that became complete, until one is refused; others go on between two sends. */
    method SendCompleteLines(chunk: Bytes, between: seq<Move>) returns (output: Option<Outcome>, ghost ending: Ending)
      requires Valid() && channel != null
      modifies this`remainder, channel
      ensures Valid() && (View(), ending) == Streamed(old(View()), chunk, between) && output == OutcomeOf(View(), ending)
    {
      hide LineLength, CompleteLines, LinesSent, Met, Later, Takes;
      ghost var was, whole := ViewOf(channel), remainder + chunk;
      remainder := remainder + chunk;
      var moves := between;
      while NEWLINE in remainder
        invariant Valid() && LinesSent(was, whole, between) == LinesSent(ViewOf(channel), remainder, moves)
        decreases |remainder|
      {
        SendingGoesOn(ViewOf(channel), remainder, moves);
        moves := LetOthersMove(moves);
        var newline := LineLength(remainder);
        var line := remainder[..newline];
        remainder := remainder[newline..];
        var taken := SendLine(line);
        if !taken {
          var failure := DeliveryFailure();
          return Some(failure), Refused(line);
        }
      }
      NothingMoreIsSent(ViewOf(channel), remainder, moves);
      output, ending := None, GoesOn;
    }

    method FlushRemainder() returns (output: Option<Outcome>, ghost ending: Ending)
      requires Valid() && channel != null
      modifies this`remainder, channel
      ensures Valid() && (View(), ending) == Flushed(old(View())) && output == OutcomeOf(View(), ending)
    {
      if remainder == [] {
        return None, GoesOn;
      }
      var line := remainder;
      remainder := [];
      var taken := channel.Send(line);
      if taken {
        return None, GoesOn;
      }
      var failure := DeliveryFailure();
      output, ending := Some(failure), Refused(line);
    }

    /** One read of a stream that is ready. */
    method ReadOutput(stream: Stream, most: nat, between: seq<Move>) returns (output: Option<Outcome>, ghost ending: Ending)
      requires Valid() && most > 0 && (if stream.Stdout? then stdoutOpen else stderrOpen)
      modifies this, channel
      ensures Valid() && (View(), ending) == CliRuns.ReadOutput(Limits(), old(View()), stream, most, between)
      ensures output == OutcomeOf(View(), ending)
    {
      hide LineLength, Streamed, Flushed;
      var room := limit - |stdout| - |stderr|;
      if room <= 0 {
        return Some(Outcome(false, OutputLimitReached)), LimitReached;
      }
      var chunk := ReadPipe(stream, most, room);
      if chunk == [] {
        output, ending := FinishStream(stream);
      } else if mode.FirstLine? && stream.Stdout? && NEWLINE in chunk {
        stdout := stdout + chunk[..LineLength(chunk)];
        output, ending := Some(Outcome(true, Complete)), FirstLineRead;
      } else {
        output, ending := CollectChunk(stream, chunk, between);
      }
    }

    /** `os.read`: what the pipe holds, at most as much as is asked for. */
    method ReadPipe(stream: Stream, most: nat, room: nat) returns (chunk: Bytes)
      requires room > 0 && room == Room(Limits(), View())
      modifies this`stdoutPipe, this`stderrPipe
      ensures chunk == Chunk(Limits(), old(View()), stream, most) && View() == Drained(old(View()), stream, chunk)
    {
      if stream.Stdout? {
        var n := Least(most, room, |stdoutPipe|);
        chunk := stdoutPipe[..n];
        stdoutPipe := stdoutPipe[n..];
      } else {
        var n := Least(most, room, |stderrPipe|);
        chunk := stderrPipe[..n];
        stderrPipe := stderrPipe[n..];
      }
    }

    method FinishStream(stream: Stream) returns (output: Option<Outcome>, ghost ending: Ending)
      requires Valid()
      modifies this`remainder, this`stdoutOpen, this`stderrOpen, channel
      ensures Valid() && (View(), ending) == StreamFinished(Limits(), old(View()), stream)
      ensures output == OutcomeOf(View(), ending)
    {
      output, ending := None, GoesOn;
      if stream.Stderr? {
        stderrOpen := false;
        return;
      }
      stdoutOpen := false;
      if channel != null {
        output, ending := FlushRemainder();
      }
      if output.None? && mode.FirstLine? {
        output, ending := Some(Outcome(true, Complete)), StdoutEnded;
      }
    }

    method CollectChunk(stream: Stream, chunk: Bytes, between: seq<Move>)
      returns (output: Option<Outcome>, ghost ending: Ending)
      requires Valid()
      modifies this`stdout, this`stderr, this`remainder, channel
      ensures Valid() && (View(), ending) == Collected(Limits(), old(View()), stream, chunk, between)
      ensures output == OutcomeOf(View(), ending)
    {
      output, ending := None, GoesOn;
      if stream.Stdout? {
        stdout := stdout + chunk;
        if channel != null {
          output, ending := SendCompleteLines(chunk, between);
        }
      } else {
        stderr := stderr + chunk;
      }
      if output.None? && |stdout| + |stderr| >= limit {
        output, ending := Some(Outcome(false, OutputLimitReached)), LimitReached;
      }
    }

    method WritePendingStdin(written: nat) returns (output: Option<Outcome>, ghost ending: Ending)
      requires Valid() && written <= |pendingStdin|
      modifies this`pendingStdin
      ensures Valid() && (View(), ending) == Written(old(View()), written) && output == OutcomeOf(View(), ending)
    {
      if written == 0 {
        return Some(Outcome(false, IoError)), WriteFailed;
      }
      pendingStdin := pendingStdin[written..];
      output, ending := None, GoesOn;
    }

    /** One report of the selector. */
    method Handle(report: Report) returns (output: Option<Outcome>, ghost ending: Ending)
      requires Valid()
      modifies this, channel
      ensures Valid() && (View(), ending) == Step(Limits(), old(View()), report) && output == OutcomeOf(View(), ending)
    {
      hide CliRuns.ReadOutput, Disturbed, Written;
      output, ending := None, GoesOn;
      match report
      case Readable(stream, most, between) =>
        if most > 0 && (if stream.Stdout? then stdoutOpen else stderrOpen) {
          output, ending := ReadOutput(stream, most, between);
        }
      case Writable(most) =>
        if pendingStdin != [] {
          output, ending := WritePendingStdin(Least(most, |pendingStdin|, |pendingStdin|));
        }
      case Looking(expired) =>
        if channel != null && channel.abortRequested {
          return Some(Outcome(false, Reason.Cancelled)), Aborted;
        }
        output, ending := CheckDeadline(expired);
      case Idle(expired) =>
        output, ending := CheckDeadline(expired);
      case Failing =>
        output, ending := Some(Outcome(false, IoError)), Broken;
      case Meanwhile(move) =>
        Disturb(move);
    }

    method CheckDeadline(expired: bool) returns (output: Option<Outcome>, ghost ending: Ending)
      ensures ending == if expired then Expired else GoesOn
      ensures output == OutcomeOf(View(), ending)
    {
      output, ending := None, GoesOn;
      if expired {
        output := Some(Outcome(false, if pendingStdin != [] then DeadlineWhileWriting else DeadlineWhileReading));
        ending := Expired;
      }
    }

    /** The exchange over any reports of the selector, up to its end. */
    method Exchange(reports: seq<Report>) returns (output: Option<Outcome>, ghost ending: Ending)
      requires Valid()
      modifies this, channel
      ensures Valid() && (View(), ending) == Run(Limits(), old(View()), reports) && output == OutcomeOf(View(), ending)
    {
      hide Step;
      var i := 0;
      while (stdoutOpen || stderrOpen || pendingStdin != []) && i < |reports|
        invariant Valid() && i <= |reports|
        invariant Run(Limits(), old(View()), reports) == Run(Limits(), View(), reports[i..])
      {
        output, ending := Handle(reports[i]);
        if output.Some? {
          return;
        }
        i := i + 1;
      }
      if stdoutOpen || stderrOpen || pendingStdin != [] {
        output, ending := None, GoesOn;
      } else {
        output, ending := Some(Outcome(true, Complete)), Completed;
      }
    }
  }

  lemma NothingMoreIsSent(ch: Channel, rest: Bytes, between: seq<Move>)
    requires NEWLINE !in rest
    ensures LinesSent(ch, rest, between) == (ch, rest, None)
  {
  }
}
