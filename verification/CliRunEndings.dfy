/** What each report of the selector does to a bounded exchange, when it ends one and with which outcome: told from the
    report and the state before it. */
module CliRunEndings {
  import opened Wire
  import opened CliLines
  import opened CliRuns
  import opened CliLineChannels
  import CliExchanges

  // ---------------------------------------------------------------- what others do

  /** The channel takes no line: a receiver gave up, the run was aborted, or it holds as many as it may. */
  predicate IsShut(ch: Channel)
    requires ch.Channel?
  {
    ch.aborted || ch.ended || ch.waiting >= ch.maximum
  }

  /** A receiver takes the first waiting line; one that settles on an empty channel ends and aborts it. An abort is first
      requested; only then it drops the lines that wait. */
  lemma WhatOthersDo(ch: Channel, move: Move, r: Channel)
    requires r == Disturbed(ch, move)
    ensures ch == NoChannel ==> r == ch
    ensures ch.Channel? ==>
              match move
              case Receives(settled) =>
                if ch.waiting > 0 then r == ch.(waiting := ch.waiting - 1)
                else if settled && !ch.ended then r == ch.(ended := true, aborted := true) else r == ch
              case RequestsAbort => r == ch.(aborted := true)
              case DropsLines => r == if ch.aborted then ch.(waiting := 0) else ch
  {
  }

  /** A line that became complete is sent exactly while the channel is not shut; others may move before. */
  lemma ALineIsSentUnlessTheChannelIsShut(ch: Channel, line: Bytes, between: seq<Move>)
    requires ch.Channel? && OneLine(line) && |between| <= 1
    ensures var now := if between == [] then ch else Disturbed(ch, between[0]);
            LinesSent(ch, line, between) ==
            if IsShut(now) then (now, [], Some(line))
            else (now.(sent := now.sent + [line], waiting := now.waiting + 1), [], None)
  {
    hide Disturbed;
    OneLineIsItsLength(line);
    var now := Met(ch, between);
    assert line[..|line|] == line && line[|line|..] == [];
    if Takes(now) {
      assert LinesSent(Sent(now, line), [], Later(between)) == (Sent(now, line), [], None);
    }
  }

  lemma {:induction false} OneLineIsItsLength(line: Bytes)
    requires OneLine(line)
    ensures NEWLINE in line && LineLength(line) == |line|
  {
    assert line[|line| - 1] == NEWLINE;
    if line[0] != NEWLINE {
      var rest := line[1..];
      assert rest[..|rest| - 1] == line[..|line| - 1][1..];
      OneLineIsItsLength(rest);
    }
  }

  // ---------------------------------------------------------------- reading

  function Smallest(a: nat, b: nat, c: nat): (n: nat)
    ensures n <= a && n <= b && n <= c && (n == a || n == b || n == c)
  {
    if a <= b && a <= c then a else if b <= c then b else c
  }

  /** A read of an open stream that holds something takes as much as was asked for, as fits and as is there, and leaves
      the rest; of stdout, a first line that was asked for is cut off behind its newline. */
  lemma AReadTakesWhatFits(b: Bounds, s: State, stream: Stream, most: nat, between: seq<Move>, t: State, ending: Ending)
    requires most > 0 && (if stream.Stdout? then s.stdoutOpen else s.stderrOpen)
    requires (if stream.Stdout? then s.stdoutPipe else s.stderrPipe) != [] && |s.stdout| + |s.stderr| < b.limit
    requires (t, ending) == Step(b, s, Readable(stream, most, between))
    ensures var pipe := if stream.Stdout? then s.stdoutPipe else s.stderrPipe;
            var n := Smallest(most, b.limit - |s.stdout| - |s.stderr|, |pipe|);
            && n > 0
            && t == s.(stdout := t.stdout, stderr := t.stderr, stdoutPipe := t.stdoutPipe, stderrPipe := t.stderrPipe,
                       remainder := t.remainder, channel := t.channel)
            && (stream.Stderr? ==>
                 && t.stderr == s.stderr + pipe[..n] && t.stderrPipe == pipe[n..]
                 && t.stdout == s.stdout && t.stdoutPipe == s.stdoutPipe && t.remainder == s.remainder && t.channel == s.channel)
            && (stream.Stdout? ==> t.stderr == s.stderr && t.stderrPipe == s.stderrPipe && t.stdoutPipe == pipe[n..])
            && (stream.Stdout? && (b.mode.All? || NEWLINE !in pipe[..n]) ==>
                 t.stdout == s.stdout + pipe[..n] && !ending.FirstLineRead?)
            && (stream.Stdout? && b.mode.FirstLine? && NEWLINE in pipe[..n] ==>
                 && ending.FirstLineRead?
                 && exists k :: 0 <= k < n && pipe[k] == NEWLINE && NEWLINE !in pipe[..k] && t.stdout == s.stdout + pipe[..k + 1])
  {
    var pipe := Pipe(s, stream);
    var chunk := Chunk(b, s, stream, most);
    if stream.Stdout? && b.mode.FirstLine? && NEWLINE in chunk {
      var k := LineLength(chunk) - 1;
      assert chunk[..k] == pipe[..k] && chunk[..k + 1] == pipe[..k + 1] && chunk[k] == pipe[k];
    } else {
      CollectingTells(b, Drained(s, stream, chunk), stream, chunk, between);
    }
    hide LineLength, Collected, StreamFinished;
  }

  lemma CollectingTells(b: Bounds, s: State, stream: Stream, chunk: Bytes, between: seq<Move>)
    ensures var (t, ending) := Collected(b, s, stream, chunk, between);
            && !ending.FirstLineRead?
            && if stream.Stderr? then t == s.(stderr := s.stderr + chunk)
               else t == s.(stdout := s.stdout + chunk, remainder := t.remainder, channel := t.channel)
  {
    hide LinesSent;
  }

  /** A read at the end of a stream closes it; that of stdout sends what remains as its last line, unless the channel is
      shut, and ends an exchange that asked for the first line only. */
  lemma AnEndedStreamIsClosed(b: Bounds, s: State, stream: Stream, most: nat, between: seq<Move>, t: State, ending: Ending)
    requires most > 0 && (if stream.Stdout? then s.stdoutOpen else s.stderrOpen)
    requires (if stream.Stdout? then s.stdoutPipe else s.stderrPipe) == [] && |s.stdout| + |s.stderr| < b.limit
    requires (t, ending) == Step(b, s, Readable(stream, most, between))
    ensures stream.Stderr? ==> t == s.(stderrOpen := false) && ending == GoesOn
    ensures stream.Stdout? ==>
              var last := s.channel.Channel? && s.remainder != [];
              && t == s.(stdoutOpen := false, remainder := if last then [] else s.remainder,
                         channel := if last && !IsShut(s.channel)
                                    then s.channel.(sent := s.channel.sent + [s.remainder], waiting := s.channel.waiting + 1)
                                    else s.channel)
              && ending == if last && IsShut(s.channel) then Refused(s.remainder) else if b.mode.FirstLine? then StdoutEnded else GoesOn
  {
  }

  // ---------------------------------------------------------------- when a report ends the exchange

  /** Why a report ends an exchange: each ending but those of a read has its own report and no other. */
  lemma WhenAReportEnds(b: Bounds, s: State, report: Report, t: State, ending: Ending)
    requires (t, ending) == Step(b, s, report)
    ensures ending == Aborted <==> report.Looking? && s.channel.Channel? && s.channel.aborted
    ensures ending == Expired <==>
              || (report == Looking(true) && !(s.channel.Channel? && s.channel.aborted))
              || report == Idle(true)
    ensures ending == Broken <==> report == Failing
    ensures ending == WriteFailed <==> report == Writable(0) && s.pendingStdin != []
    ensures report.Looking? || report.Idle? || report.Failing? ==> t == s
    ensures report.Writable? ==>
              t == s.(pendingStdin := s.pendingStdin[if report.most < |s.pendingStdin| then report.most else |s.pendingStdin|..])
    ensures report.Meanwhile? ==> ending == GoesOn && t == s.(channel := Disturbed(s.channel, report.move))
    ensures ending == LimitReached || ending == FirstLineRead || ending == StdoutEnded || ending.Refused? ==> report.Readable?
    ensures ending != Completed
  {
    hide LinesSent, LineLength, Disturbed;
    if report.Readable? {
      ReadsEndOtherwise(b, s, report.stream, report.most, report.between);
    }
  }

  lemma ReadsEndOtherwise(b: Bounds, s: State, stream: Stream, most: nat, between: seq<Move>)
    ensures var ending := ReadOutput(b, s, stream, most, between).1;
            ending == GoesOn || ending == LimitReached || ending == FirstLineRead || ending == StdoutEnded || ending.Refused?
  {
    hide LinesSent, LineLength;
  }

  /** What an ending is answered with: complete exactly when all was read and written or what was asked for was there;
      otherwise why not, and whether the deadline came before or after all of stdin was written. */
  lemma WhatAnEndingIsAnsweredWith(s: State, ending: Ending, output: Option<Outcome>)
    requires output == CliExchanges.OutcomeOf(s, ending)
    ensures output.None? <==> ending == GoesOn
    ensures output.Some? ==>
              && (output.value.complete <==> ending == Completed || ending == FirstLineRead || ending == StdoutEnded)
              && (output.value.complete <==> output.value.reason == Complete)
              && (output.value.reason == Reason.OutputLimitReached <==> ending == LimitReached)
              && (output.value.reason == Reason.Cancelled <==>
                    ending == Aborted || (ending.Refused? && s.channel.Channel? && s.channel.aborted))
              && (output.value.reason == OutputChannelFull <==> ending.Refused? && !(s.channel.Channel? && s.channel.aborted))
              && (output.value.reason == DeadlineWhileWriting <==> ending == Expired && s.pendingStdin != [])
              && (output.value.reason == DeadlineWhileReading <==> ending == Expired && s.pendingStdin == [])
              && (output.value.reason == IoError <==> ending == WriteFailed || ending == Broken)
  {
  }
}
