/** What a bounded exchange with a CLI does (src/agent_runtime/process.py:1114-1312), as a function of what the
    selector reports, and what that comes to whatever the sizes of the reads. */
module CliRuns {
  import opened Wire
  import opened CliLines

  datatype ReadMode = All | FirstLine

  datatype Stream = Stdout | Stderr

  /** The line channel as the exchange sees it: what was sent so far and how many lines wait in it. */
  datatype Channel = NoChannel | Channel(sent: seq<Bytes>, waiting: nat, maximum: nat, aborted: bool, ended: bool)

  /** The pipes hold what the child wrote, or will write, and nobody has read. */
  datatype State = State(
    stdout: Bytes, stderr: Bytes, pendingStdin: Bytes, remainder: Bytes, stdoutOpen: bool, stderrOpen: bool,
    stdoutPipe: Bytes, stderrPipe: Bytes, channel: Channel)

  /** What others do to the channel: a receiver takes a line or gives up, and the two regions of an abort. */
  datatype Move = Receives(settled: bool) | RequestsAbort | DropsLines

  /** A report of the selector: a stream with `most` bytes to read, or at its end, and what others do while its
      lines are sent; a stdin that takes `most` bytes; a look at the clock, and at the abort before it; a failing
      system call. Or what others do meanwhile. */
  datatype Report =
    | Readable(stream: Stream, most: nat, between: seq<Move>)
    | Writable(most: nat)
    | Looking(expired: bool)
    | Idle(expired: bool)
    | Failing
    | Meanwhile(move: Move)

  /** How the exchange ended. A refused line left the remainder and was not sent. */
  datatype Ending =
    | GoesOn | Completed | FirstLineRead | StdoutEnded | LimitReached | Refused(line: Bytes)
    | Aborted | Expired | WriteFailed | Broken

  datatype Bounds = Bounds(limit: nat, mode: ReadMode)

  predicate Takes(ch: Channel) {
    ch.Channel? && !ch.aborted && !ch.ended && ch.waiting < ch.maximum
  }

  function Sent(ch: Channel, line: Bytes): Channel
    requires Takes(ch)
  {
    ch.(sent := ch.sent + [line], waiting := ch.waiting + 1)
  }

  /** What a move does to the channel. */
  function Disturbed(ch: Channel, move: Move): (r: Channel)
    ensures r.Channel? == ch.Channel? && (ch.Channel? ==> r.sent == ch.sent)
  {
    if ch.NoChannel? then ch
    else
      match move
      case Receives(settled) =>
        if ch.waiting > 0 then ch.(waiting := ch.waiting - 1)
        else if settled && !ch.ended then ch.(ended := true, aborted := true) else ch
      case RequestsAbort => ch.(aborted := true)
      case DropsLines => if ch.aborted then ch.(waiting := 0) else ch
  }

  /** The channel after the next move of others, if there is one. */
  function Met(ch: Channel, between: seq<Move>): (r: Channel)
    ensures r.Channel? == ch.Channel? && (ch.Channel? ==> r.sent == ch.sent)
  {
    if between == [] then ch else Disturbed(ch, between[0])
  }

  function Later(between: seq<Move>): seq<Move> {
    if between == [] then [] else between[1..]
  }

  /** The complete lines of `rest` are sent until one is refused: the channel, what remains, the refused line. */
  function LinesSent(ch: Channel, rest: Bytes, between: seq<Move>): (r: (Channel, Bytes, Option<Bytes>))
    ensures ch.Channel? ==> r.0.Channel?
    decreases |rest|
  {
    if NEWLINE !in rest then (ch, rest, None)
    else
      var n := LineLength(rest);
      var now := Met(ch, between);
      if Takes(now) then LinesSent(Sent(now, rest[..n]), rest[n..], Later(between))
      else (now, rest[n..], Some(rest[..n]))
  }

  function Room(b: Bounds, s: State): int {
    b.limit - |s.stdout| - |s.stderr|
  }

  function Least(a: nat, b: nat, c: nat): nat {
    if a <= b && a <= c then a else if b <= c then b else c
  }

  function Pipe(s: State, stream: Stream): Bytes {
    if stream.Stdout? then s.stdoutPipe else s.stderrPipe
  }

  /** What one read takes. */
  function Chunk(b: Bounds, s: State, stream: Stream, most: nat): Bytes
    requires Room(b, s) > 0
  {
    Pipe(s, stream)[..Least(most, Room(b, s), |Pipe(s, stream)|)]
  }

  function Drained(s: State, stream: Stream, chunk: Bytes): State
    requires |chunk| <= |Pipe(s, stream)|
  {
    if stream.Stdout? then s.(stdoutPipe := s.stdoutPipe[|chunk|..]) else s.(stderrPipe := s.stderrPipe[|chunk|..])
  }

  function ReadOutput(b: Bounds, s: State, stream: Stream, most: nat, between: seq<Move>): (State, Ending) {
    if Room(b, s) <= 0 then (s, LimitReached)
    else
      var chunk := Chunk(b, s, stream, most);
      var t := Drained(s, stream, chunk);
      if chunk == [] then StreamFinished(b, s, stream)
      else if b.mode.FirstLine? && stream.Stdout? && NEWLINE in chunk then
        (t.(stdout := t.stdout + chunk[..LineLength(chunk)]), FirstLineRead)
      else Collected(b, t, stream, chunk, between)
  }

  function StreamFinished(b: Bounds, s: State, stream: Stream): (State, Ending) {
    if stream.Stderr? then (s.(stderrOpen := false), GoesOn)
    else
      var (t, ending) := Flushed(s.(stdoutOpen := false));
      (t, if ending.GoesOn? && b.mode.FirstLine? then StdoutEnded else ending)
  }

  /** The last line, without a newline, is sent too. */
  function Flushed(s: State): (State, Ending) {
    if s.channel.NoChannel? || s.remainder == [] then (s, GoesOn)
    else if Takes(s.channel) then (s.(remainder := [], channel := Sent(s.channel, s.remainder)), GoesOn)
    else (s.(remainder := []), Refused(s.remainder))
  }

  function Collected(b: Bounds, s: State, stream: Stream, chunk: Bytes, between: seq<Move>): (State, Ending) {
    var (t, ending) :=
      if stream.Stderr? then (s.(stderr := s.stderr + chunk), GoesOn)
      else Streamed(s.(stdout := s.stdout + chunk), chunk, between);
    (t, if ending.GoesOn? && Room(b, t) <= 0 then LimitReached else ending)
  }

  function Streamed(s: State, chunk: Bytes, between: seq<Move>): (State, Ending) {
    if s.channel.NoChannel? then (s, GoesOn)
    else
      var (channel, remainder, refused) := LinesSent(s.channel, s.remainder + chunk, between);
      (s.(channel := channel, remainder := remainder), if refused.Some? then Refused(refused.value) else GoesOn)
  }

  function Written(s: State, written: nat): (State, Ending)
    requires written <= |s.pendingStdin|
  {
    if written == 0 then (s, WriteFailed) else (s.(pendingStdin := s.pendingStdin[written..]), GoesOn)
  }

  predicate Over(s: State) {
    !s.stdoutOpen && !s.stderrOpen && s.pendingStdin == []
  }

  function Step(b: Bounds, s: State, report: Report): (State, Ending) {
    match report
    case Readable(stream, most, between) =>
      if most > 0 && (if stream.Stdout? then s.stdoutOpen else s.stderrOpen) then ReadOutput(b, s, stream, most, between)
      else (s, GoesOn)
    case Writable(most) =>
      if s.pendingStdin == [] then (s, GoesOn) else Written(s, Least(most, |s.pendingStdin|, |s.pendingStdin|))
    case Looking(expired) =>
      (s, if s.channel.Channel? && s.channel.aborted then Aborted else if expired then Expired else GoesOn)
    case Idle(expired) => (s, if expired then Expired else GoesOn)
    case Failing => (s, Broken)
    case Meanwhile(move) => (s.(channel := Disturbed(s.channel, move)), GoesOn)
  }

  /** The exchange, up to its end or the last report. */
  function Run(b: Bounds, s: State, reports: seq<Report>): (State, Ending)
    decreases |reports|
  {
    if Over(s) then (s, Completed)
    else if reports == [] then (s, GoesOn)
    else
      var (t, ending) := Step(b, s, reports[0]);
      if ending.GoesOn? then Run(b, t, reports[1..]) else (t, ending)
  }

  function Start(out: Bytes, err: Bytes, stdin: Bytes, channel: Channel): State {
    State([], [], stdin, [], true, true, out, err, channel)
  }

  // ---------------------------------------------------------------- lines that are sent

  /** A first part of the lines is sent, all of them unless one is refused, which alone is missing then. */
  predicate FirstPartSent(rest: Bytes, lines: seq<Bytes>, remainder: Bytes, refused: Option<Bytes>) {
    match refused
    case None => lines == CompleteLines(rest) && remainder == Remainder(rest)
    case Some(line) =>
      && |lines| < |CompleteLines(rest)| && lines + [line] == CompleteLines(rest)[..|lines| + 1]
      && Joined(lines) + line + remainder == rest
  }

  lemma OneLineMore(line: Bytes, rest: Bytes, lines: seq<Bytes>, remainder: Bytes, refused: Option<Bytes>)
    requires NEWLINE in line && LineLength(line) == |line|
    requires FirstPartSent(rest, lines, remainder, refused)
    ensures FirstPartSent(line + rest, [line] + lines, remainder, refused)
  {
    AfterOneLine(line, rest);
    hide CompleteLines, Remainder, LineLength, Joined;
    if refused.Some? {
      OneLineMoreRefused(line, rest, lines, remainder, refused.value);
    }
  }

  lemma AfterOneLine(line: Bytes, rest: Bytes)
    requires NEWLINE in line && LineLength(line) == |line|
    ensures CompleteLines(line + rest) == [line] + CompleteLines(rest) && Remainder(line + rest) == Remainder(rest)
  {
    FirstLineOf(line, rest);
    hide CompleteLines, Remainder;
    assert line[..|line|] == line && line[|line|..] + rest == rest;
  }

  lemma OneLineMoreRefused(line: Bytes, rest: Bytes, lines: seq<Bytes>, remainder: Bytes, refused: Bytes)
    requires CompleteLines(line + rest) == [line] + CompleteLines(rest)
    requires FirstPartSent(rest, lines, remainder, Some(refused))
    ensures FirstPartSent(line + rest, [line] + lines, remainder, Some(refused))
  {
    hide CompleteLines, Remainder, Joined;
    LinesShift(line, lines, refused, CompleteLines(rest));
    JoinedAppends([line], lines);
    OneJoined(line);
    BytesShift(line, Joined(lines), refused, remainder);
  }

  lemma LinesShift(line: Bytes, lines: seq<Bytes>, last: Bytes, all: seq<Bytes>)
    requires |lines| < |all| && lines + [last] == all[..|lines| + 1]
    ensures [line] + lines + [last] == ([line] + all)[..|lines| + 2]
  {
    assert ([line] + all)[..|lines| + 2] == [line] + all[..|lines| + 1];
  }

  lemma BytesShift(line: Bytes, a: Bytes, b: Bytes, c: Bytes)
    ensures (line + a) + b + c == line + (a + b + c)
  {
  }

  lemma OneJoined(line: Bytes)
    ensures Joined([line]) == line
  {
    assert [line][1..] == [] && line + [] == line;
  }

  lemma SendingGoesOn(ch: Channel, rest: Bytes, between: seq<Move>)
    requires NEWLINE in rest
    ensures var n := LineLength(rest);
            var now := Met(ch, between);
            && NEWLINE in rest[..n] && LineLength(rest[..n]) == n
            && LinesSent(ch, rest, between)
               == if Takes(now) then LinesSent(Sent(now, rest[..n]), rest[n..], Later(between))
                  else (now, rest[n..], Some(rest[..n]))
  {
    var n := LineLength(rest);
    assert rest[..n][n - 1] == NEWLINE && NEWLINE !in rest[..n][..n - 1] by {
      assert rest[..n][..n - 1] == rest[..n - 1];
    }
  }

  /** What came of sending the lines of `rest` after `sent`: the channel, what remains, the refused line. */
  predicate PartSent(sent: seq<Bytes>, rest: Bytes, r: (Channel, Bytes, Option<Bytes>)) {
    && r.0.Channel? && sent <= r.0.sent && FirstPartSent(rest, r.0.sent[|sent|..], r.1, r.2)
    && (r.2.Some? ==> !Takes(r.0))
  }

  lemma PartAfterTheFirst(sent: seq<Bytes>, line: Bytes, later: Bytes, r: (Channel, Bytes, Option<Bytes>))
    requires NEWLINE in line && LineLength(line) == |line| && PartSent(sent + [line], later, r)
    ensures PartSent(sent, line + later, r)
  {
    hide FirstPartSent, LineLength, Takes;
    assert r.0.sent[|sent|] == (sent + [line])[|sent|];
    assert r.0.sent[|sent|..] == [line] + r.0.sent[|sent| + 1..];
    OneLineMore(line, later, r.0.sent[|sent| + 1..], r.1, r.2);
  }

  lemma NoPart(sent: seq<Bytes>, line: Bytes, later: Bytes, ch: Channel)
    requires NEWLINE in line && LineLength(line) == |line| && ch.Channel? && ch.sent == sent && !Takes(ch)
    ensures PartSent(sent, line + later, (ch, later, Some(line)))
  {
    hide FirstPartSent, LineLength, Takes;
    assert ch.sent[|sent|..] == [];
    TheFirstIsRefused(line, later);
  }

  lemma {:induction false} AFirstPartIsSent(ch: Channel, rest: Bytes, between: seq<Move>)
    requires ch.Channel?
    ensures PartSent(ch.sent, rest, LinesSent(ch, rest, between))
    decreases |rest|
  {
    if NEWLINE !in rest {
      assert ch.sent[|ch.sent|..] == [];
    } else {
      var n, now := LineLength(rest), Met(ch, between);
      SendingGoesOn(ch, rest, between);
      assert rest == rest[..n] + rest[n..];
      hide FirstPartSent, LineLength, LinesSent, Met, Takes, Later, PartSent;
      if Takes(now) {
        AFirstPartIsSent(Sent(now, rest[..n]), rest[n..], Later(between));
        PartAfterTheFirst(ch.sent, rest[..n], rest[n..], LinesSent(ch, rest, between));
      } else {
        NoPart(ch.sent, rest[..n], rest[n..], now);
      }
    }
  }

  lemma TheFirstIsRefused(line: Bytes, later: Bytes)
    requires NEWLINE in line && LineLength(line) == |line|
    ensures FirstPartSent(line + later, [], later, Some(line))
  {
    AfterOneLine(line, later);
    assert Joined([]) == [];
    hide CompleteLines, LineLength, Joined, Remainder;
    FirstOf(line, CompleteLines(later));
    BytesShift([], [], line, later);
    assert [] + line == line;
  }

  lemma FirstOf(line: Bytes, lines: seq<Bytes>)
    ensures ([line] + lines)[..1] == [] + [line]
  {
  }

  // ---------------------------------------------------------------- what every report keeps

  /** What the child writes and is given to read, and what was sent before the exchange. */
  datatype Child = Child(out: Bytes, err: Bytes, stdin: Bytes, before: seq<Bytes>)

  function NewLines(c: Child, s: State): seq<Bytes>
    requires s.channel.Channel? && c.before <= s.channel.sent
  {
    s.channel.sent[|c.before|..]
  }

  /** Both outputs are what was collected and what is still in the pipe; stdin is what was written and what is pending. */
  predicate Conserved(b: Bounds, c: Child, s: State) {
    && s.stdout + s.stdoutPipe == c.out && s.stderr + s.stderrPipe == c.err
    && |s.pendingStdin| <= |c.stdin| && s.pendingStdin == c.stdin[|c.stdin| - |s.pendingStdin|..]
    && |s.stdout| + |s.stderr| <= b.limit
  }

  /** The lines sent are the lines of the stdout collected, and the remainder is what follows them. */
  predicate Streaming(c: Child, s: State) {
    s.channel.Channel? ==>
      && c.before <= s.channel.sent
      && if s.stdoutOpen then NewLines(c, s) == CompleteLines(s.stdout) && s.remainder == Remainder(s.stdout)
         else NewLines(c, s) == AllLines(s.stdout) && s.remainder == []
  }

  predicate Under(b: Bounds, s: State) {
    |s.stdout| + |s.stderr| < b.limit || (s.stdout == [] && s.stderr == [])
  }

  predicate Inv(b: Bounds, c: Child, s: State) {
    && Conserved(b, c, s) && Streaming(c, s) && Under(b, s)
    && (!s.stdoutOpen ==> s.stdoutPipe == [] && b.mode.All? && b.limit > 0)
    && (!s.stderrOpen ==> s.stderrPipe == [])
    && (b.mode.FirstLine? ==> NEWLINE !in s.stdout)
  }

  /** Only the refused line is missing between the lines sent and the remainder. */
  predicate OneLineMissing(c: Child, s: State, line: Bytes) {
    && s.channel.Channel? && c.before <= s.channel.sent && !Takes(s.channel) && line != []
    && |NewLines(c, s)| < |AllLines(s.stdout)|
    && NewLines(c, s) + [line] == AllLines(s.stdout)[..|NewLines(c, s)| + 1]
    && Joined(NewLines(c, s)) + line + s.remainder == s.stdout
  }

  /** The state at each ending. */
  predicate Ends(b: Bounds, c: Child, s: State, ending: Ending) {
    match ending
    case GoesOn => Inv(b, c, s)
    case Completed => Inv(b, c, s) && Over(s)
    case FirstLineRead =>
      && b.mode.FirstLine? && NEWLINE in c.out && s.stdout == c.out[..LineLength(c.out)]
      && s.stderr + s.stderrPipe == c.err && |s.stdout| + |s.stderr| <= b.limit
      && (s.channel.Channel? ==> s.channel.sent == c.before && s.remainder < s.stdout)
    case StdoutEnded =>
      && b.mode.FirstLine? && NEWLINE !in c.out && s.stdout == c.out
      && Conserved(b, c, s) && Streaming(c, s) && !s.stdoutOpen
    case LimitReached => Conserved(b, c, s) && Streaming(c, s) && |s.stdout| + |s.stderr| == b.limit
    case Refused(line) => Conserved(b, c, s) && OneLineMissing(c, s, line)
    case Aborted => Inv(b, c, s) && s.channel.Channel? && s.channel.aborted
    case Expired => Inv(b, c, s)
    case WriteFailed => Inv(b, c, s)
    case Broken => Inv(b, c, s)
  }

  lemma StartKeeps(b: Bounds, c: Child, s: State)
    requires s.channel.Channel? ==> s.channel.sent == c.before
    requires s == Start(c.out, c.err, c.stdin, s.channel)
    ensures Inv(b, c, s)
  {
  }

  /** Taking a chunk off a pipe moves it to what is collected. */
  lemma ChunksMove(pipe: Bytes, n: nat, collected: Bytes, whole: Bytes)
    requires n <= |pipe| && collected + pipe == whole
    ensures (collected + pipe[..n]) + pipe[n..] == whole
  {
    assert pipe == pipe[..n] + pipe[n..];
  }

  /** After a chunk of stdout the lines sent are those of the stdout collected, or one was refused. */
  lemma StreamingAChunk(c: Child, s: State, chunk: Bytes, between: seq<Move>)
    requires Streaming(c, s) && s.stdoutOpen
    ensures var (t, ending) := Streamed(s.(stdout := s.stdout + chunk), chunk, between);
            && t.stdout == s.stdout + chunk && t.stdoutOpen
            && if ending.Refused? then OneLineMissing(c, t, ending.line) else ending.GoesOn? && Streaming(c, t)
  {
    hide CompleteLines, Remainder, LinesSent, Takes, Joined, AllLines, FirstPartSent;
    if s.channel.Channel? {
      var (after, remainder, refused) := LinesSent(s.channel, s.remainder + chunk, between);
      AFirstPartIsSent(s.channel, s.remainder + chunk, between);
      SentAfter(c.before, s.channel.sent, after.sent);
      if refused.Some? {
        OneIsRefused(s.stdout, chunk, after.sent[|s.channel.sent|..], refused.value, remainder);
      } else {
        AllAreSent(s.stdout, chunk, after.sent[|s.channel.sent|..], remainder);
      }
    }
  }

  lemma AllAreSent(stdout: Bytes, chunk: Bytes, sent: seq<Bytes>, remainder: Bytes)
    requires FirstPartSent(Remainder(stdout) + chunk, sent, remainder, None)
    ensures CompleteLines(stdout) + sent == CompleteLines(stdout + chunk) && remainder == Remainder(stdout + chunk)
  {
    LinesOfPieces(stdout, chunk);
    hide CompleteLines, Remainder;
  }

  lemma SentAfter(before: seq<Bytes>, earlier: seq<Bytes>, now: seq<Bytes>)
    requires before <= earlier <= now
    ensures now[|before|..] == earlier[|before|..] + now[|earlier|..]
  {
  }

  lemma OneIsRefused(stdout: Bytes, chunk: Bytes, sent: seq<Bytes>, line: Bytes, remainder: Bytes)
    requires FirstPartSent(Remainder(stdout) + chunk, sent, remainder, Some(line))
    ensures var lines := CompleteLines(stdout) + sent;
            && line != [] && |lines| < |AllLines(stdout + chunk)|
            && lines + [line] == AllLines(stdout + chunk)[..|lines| + 1]
            && Joined(lines) + line + remainder == stdout + chunk
  {
    hide CompleteLines, Remainder, Joined;
    var rest := Remainder(stdout) + chunk;
    LinesOfPieces(stdout, chunk);
    LinesAreTheStream(rest);
    assert line == (sent + [line])[|sent|] == CompleteLines(rest)[|sent|];
    assert OneLine(CompleteLines(rest)[|sent|]);
    var tail := if Remainder(stdout + chunk) == [] then [] else [Remainder(stdout + chunk)];
    RefusedAmong(CompleteLines(stdout), CompleteLines(rest), tail, sent, line);
    BytesOfRefused(stdout, chunk, sent, line, remainder);
  }

  lemma BytesOfRefused(stdout: Bytes, chunk: Bytes, sent: seq<Bytes>, line: Bytes, remainder: Bytes)
    requires Joined(sent) + line + remainder == Remainder(stdout) + chunk
    ensures Joined(CompleteLines(stdout) + sent) + line + remainder == stdout + chunk
  {
    hide CompleteLines, Remainder, Joined;
    LinesAreTheStream(stdout);
    JoinedAppends(CompleteLines(stdout), sent);
    BytesShift(Joined(CompleteLines(stdout)), Joined(sent), line, remainder);
    BytesAssociate(Joined(CompleteLines(stdout)), Remainder(stdout), chunk);
  }

  lemma RefusedAmong(a: seq<Bytes>, b: seq<Bytes>, c: seq<Bytes>, sent: seq<Bytes>, line: Bytes)
    requires |sent| < |b| && sent + [line] == b[..|sent| + 1]
    ensures (a + sent) + [line] == ((a + b) + c)[..|a + sent| + 1]
  {
    var n := |a| + |sent| + 1;
    assert ((a + b) + c)[..n] == (a + b)[..n] == a + b[..|sent| + 1];
    assert (a + sent) + [line] == a + (sent + [line]);
  }

  /** A chunk that is collected leaves the pipe, within the room. */
  lemma CollectingEnds(b: Bounds, c: Child, s: State, stream: Stream, chunk: Bytes, between: seq<Move>)
    requires Inv(b, c, s) && (if stream.Stdout? then s.stdoutOpen else s.stderrOpen)
    requires chunk != [] && |chunk| <= Room(b, s)
    requires chunk <= Pipe(s, stream) && (b.mode.FirstLine? && stream.Stdout? ==> NEWLINE !in chunk)
    ensures var (t, ending) := Collected(b, Drained(s, stream, chunk), stream, chunk, between);
            Ends(b, c, t, ending) && (ending.LimitReached? || ending.Refused? || ending.GoesOn?)
  {
    hide Takes, CompleteLines, Remainder, AllLines, Joined, Streamed, Streaming, OneLineMissing;
    var d := Drained(s, stream, chunk);
    assert Pipe(s, stream)[..|chunk|] == chunk;
    SameStreaming(c, s, d);
    if stream.Stdout? {
      ChunksMove(s.stdoutPipe, |chunk|, s.stdout, c.out);
      StreamingAChunk(c, d, chunk, between);
      StreamingKeepsTheRest(d.(stdout := d.stdout + chunk), chunk, between);
    } else {
      ChunksMove(s.stderrPipe, |chunk|, s.stderr, c.err);
      SameStreaming(c, s, d.(stderr := d.stderr + chunk));
    }
  }

  lemma SameStreaming(c: Child, s: State, t: State)
    requires t.channel == s.channel && t.stdout == s.stdout && t.remainder == s.remainder && t.stdoutOpen == s.stdoutOpen
    ensures Streaming(c, s) == Streaming(c, t)
  {
  }

  lemma StreamingKeepsTheRest(s: State, chunk: Bytes, between: seq<Move>)
    ensures var t := Streamed(s, chunk, between).0; t == s.(channel := t.channel, remainder := t.remainder)
  {
  }

  /** At the end of a stream nothing is left in its pipe. */
  lemma FinishingEnds(b: Bounds, c: Child, s: State, stream: Stream)
    requires Inv(b, c, s) && Pipe(s, stream) == [] && Room(b, s) > 0
    requires if stream.Stdout? then s.stdoutOpen else s.stderrOpen
    ensures var (t, ending) := StreamFinished(b, s, stream);
            Ends(b, c, t, ending) && (ending.StdoutEnded? || ending.Refused? || ending.GoesOn?)
  {
    if stream.Stdout? {
      FlushingSends(c, s);
      assert s.stdout + [] == s.stdout;
    }
    hide Takes, CompleteLines, Remainder, Joined, AllLines, OneLineMissing, Streaming, Flushed;
  }

  lemma TheLastLine(stdout: Bytes)
    ensures var lines, last := CompleteLines(stdout), Remainder(stdout);
            if last == [] then AllLines(stdout) == lines
            else
              && AllLines(stdout) == lines + [last] && lines + [last] == AllLines(stdout)[..|lines| + 1]
              && Joined(lines) + last + [] == stdout
  {
    LinesAreTheStream(stdout);
    var lines, last := CompleteLines(stdout), Remainder(stdout);
    hide CompleteLines, Remainder, Joined;
    assert lines + [] == lines && Joined(lines) + last + [] == Joined(lines) + last;
    assert (lines + [last])[..|lines| + 1] == lines + [last];
  }

  lemma FlushingSends(c: Child, s: State)
    requires Streaming(c, s) && s.stdoutOpen
    ensures var (t, ending) := Flushed(s.(stdoutOpen := false));
            && t == s.(stdoutOpen := false, channel := t.channel, remainder := t.remainder)
            && if ending.Refused? then OneLineMissing(c, t, ending.line) else ending.GoesOn? && Streaming(c, t)
  {
    if s.channel.Channel? {
      TheLastLine(s.stdout);
      hide CompleteLines, Remainder, Joined, AllLines;
      if s.remainder != [] && Takes(s.channel) {
        SentAfter(c.before, s.channel.sent, s.channel.sent + [s.remainder]);
        assert (s.channel.sent + [s.remainder])[|s.channel.sent|..] == [s.remainder];
      }
    }
  }

  lemma NoLineYet(c: Child, s: State)
    requires Streaming(c, s) && s.stdoutOpen && NEWLINE !in s.stdout && s.channel.Channel?
    ensures s.channel.sent == c.before && s.remainder == s.stdout
  {
    assert NewLines(c, s) == [] && s.channel.sent == c.before + NewLines(c, s);
  }

  lemma TheFirstLine(out: Bytes, collected: Bytes, pipe: Bytes, chunk: Bytes)
    requires NEWLINE !in collected && NEWLINE in chunk && out == collected + pipe && chunk <= pipe
    ensures var n := LineLength(chunk);
            && 0 < n && NEWLINE in out && LineLength(out) == |collected| + n
            && out[..LineLength(out)] == collected + chunk[..n]
  {
    hide LineLength;
    var n, rest := LineLength(chunk), pipe[|chunk|..];
    assert pipe == chunk + rest && pipe[n - 1] == chunk[n - 1] == NEWLINE;
    NothingBefore(collected, pipe);
    LineLengthOfLonger(chunk, rest);
    assert out[|collected| + n - 1] == NEWLINE;
    assert pipe[..n] == chunk[..n] && out[..|collected| + n] == collected + pipe[..n];
  }

  /** A first line in the chunk is the first line of the whole output: what was collected before held none. */
  lemma FirstLineEnds(b: Bounds, c: Child, s: State, chunk: Bytes)
    requires Inv(b, c, s) && b.mode.FirstLine? && s.stdoutOpen && chunk <= s.stdoutPipe && NEWLINE in chunk
    requires |chunk| <= Room(b, s)
    ensures var t := Drained(s, Stdout, chunk);
            Ends(b, c, t.(stdout := t.stdout + chunk[..LineLength(chunk)]), FirstLineRead)
  {
    hide LineLength, CompleteLines, Remainder, AllLines, Streaming, Under;
    TheFirstLine(c.out, s.stdout, s.stdoutPipe, chunk);
    if s.channel.Channel? {
      NoLineYet(c, s);
    }
  }

  lemma {:induction false} NothingBefore(a: Bytes, rest: Bytes)
    requires NEWLINE !in a && NEWLINE in rest
    ensures LineLength(a + rest) == |a| + LineLength(rest)
    decreases |a|
  {
    if a == [] {
      assert a + rest == rest;
    } else {
      assert (a + rest)[1..] == a[1..] + rest;
      NothingBefore(a[1..], rest);
    }
  }

  /** A read ends at the limit exactly when nothing more fits, unless a line was refused or was what was asked for. */
  lemma ReadingEnds(b: Bounds, c: Child, s: State, stream: Stream, most: nat, between: seq<Move>)
    requires Inv(b, c, s) && most > 0 && (if stream.Stdout? then s.stdoutOpen else s.stderrOpen)
    ensures var (t, ending) := ReadOutput(b, s, stream, most, between);
            && Ends(b, c, t, ending)
            && !(ending.Completed? || ending.Aborted? || ending.Expired? || ending.WriteFailed? || ending.Broken?)
            && (ending.LimitReached? || ending.GoesOn? ==> (ending.LimitReached? <==> |t.stdout| + |t.stderr| == b.limit))
  {
    hide Takes, CompleteLines, Remainder, Joined, AllLines, LineLength, Collected, StreamFinished, OneLineMissing, Streaming;
    if Room(b, s) > 0 {
      var chunk := Chunk(b, s, stream, most);
      if chunk == [] {
        FinishingEnds(b, c, s, stream);
        FinishingReadsNothing(b, s, stream);
      } else if b.mode.FirstLine? && stream.Stdout? && NEWLINE in chunk {
        FirstLineEnds(b, c, s, chunk);
      } else {
        CollectingEnds(b, c, s, stream, chunk, between);
        CollectingStopsAtTheLimit(b, Drained(s, stream, chunk), stream, chunk, between);
      }
    }
  }

  lemma FinishingReadsNothing(b: Bounds, s: State, stream: Stream)
    ensures var (t, ending) := StreamFinished(b, s, stream); t.stdout == s.stdout && t.stderr == s.stderr && !ending.LimitReached?
  {
  }

  lemma CollectingStopsAtTheLimit(b: Bounds, s: State, stream: Stream, chunk: Bytes, between: seq<Move>)
    ensures var (t, ending) := Collected(b, s, stream, chunk, between);
            && (ending.GoesOn? ==> Room(b, t) > 0) && (ending.LimitReached? ==> Room(b, t) <= 0)
  {
    hide LinesSent;
  }

  lemma WritingEnds(b: Bounds, c: Child, s: State, written: nat)
    requires Inv(b, c, s) && written <= |s.pendingStdin|
    ensures var (t, ending) := Written(s, written); Ends(b, c, t, ending) && (ending.GoesOn? || ending.WriteFailed?)
  {
    SameStreaming(c, s, s.(pendingStdin := s.pendingStdin[written..]));
    hide Streaming;
  }

  lemma DisturbingKeeps(b: Bounds, c: Child, s: State, move: Move)
    requires Inv(b, c, s)
    ensures Inv(b, c, s.(channel := Disturbed(s.channel, move)))
  {
    hide CompleteLines, Remainder, AllLines;
  }

  lemma StepEnds(b: Bounds, c: Child, s: State, report: Report)
    requires Inv(b, c, s)
    ensures var (t, ending) := Step(b, s, report); Ends(b, c, t, ending) && !ending.Completed?
  {
    hide Inv, Streaming, Conserved, ReadOutput, OneLineMissing, LineLength, Disturbed, Written;
    match report {
      case Readable(stream, most, between) =>
        if most > 0 && (if stream.Stdout? then s.stdoutOpen else s.stderrOpen) {
          ReadingEnds(b, c, s, stream, most, between);
        }
      case Writable(most) =>
        if s.pendingStdin != [] {
          WritingEnds(b, c, s, Least(most, |s.pendingStdin|, |s.pendingStdin|));
        }
      case Looking(_) =>
      case Idle(_) =>
      case Failing =>
      case Meanwhile(move) => DisturbingKeeps(b, c, s, move);
    }
  }

  /** Whatever the reports, the state is what its ending says. */
  lemma {:induction false} RunEnds(b: Bounds, c: Child, s: State, reports: seq<Report>)
    requires Inv(b, c, s)
    ensures var (t, ending) := Run(b, s, reports);
            Ends(b, c, t, ending) && (ending.GoesOn? ==> !Over(t))
    decreases |reports|
  {
    if !Over(s) && reports != [] {
      StepEnds(b, c, s, reports[0]);
      hide Step, Inv;
      var (t, ending) := Step(b, s, reports[0]);
      if ending.GoesOn? {
        RunEnds(b, c, t, reports[1..]);
      }
    }
  }

  // ---------------------------------------------------------------- what an exchange comes to

  lemma StartedRunsEnd(b: Bounds, c: Child, s: State, reports: seq<Report>)
    requires s == Start(c.out, c.err, c.stdin, s.channel) && (s.channel.Channel? ==> s.channel.sent == c.before)
    ensures var (t, ending) := Run(b, s, reports); Ends(b, c, t, ending) && (ending.GoesOn? ==> !Over(t))
  {
    StartKeeps(b, c, s);
    hide Inv, Ends, Run;
    RunEnds(b, c, s, reports);
  }

  /** Whatever the sizes of the reads, what was collected is a first part of each output and within the limit,
      which is reached exactly where the exchange says so; a completed exchange has all of both outputs and
      wrote all of stdin, and one that reads the first line has exactly that line. */
  lemma CollectedIsWhatTheChildWrote(b: Bounds, c: Child, s: State, reports: seq<Report>)
    requires s == Start(c.out, c.err, c.stdin, s.channel) && (s.channel.Channel? ==> s.channel.sent == c.before)
    ensures var (t, ending) := Run(b, s, reports);
            && t.stdout <= c.out && t.stderr <= c.err && |t.stdout| + |t.stderr| <= b.limit
            && (ending.LimitReached? ==> |t.stdout| + |t.stderr| == b.limit)
            && (|t.stdout| + |t.stderr| == b.limit && b.limit > 0 ==>
                  ending.LimitReached? || ending.Refused? || ending.FirstLineRead? || ending.StdoutEnded?)
            && (ending.Completed? ==>
                  && b.mode.All? && t.stdout == c.out && t.stderr == c.err && t.pendingStdin == []
                  && |c.out| + |c.err| < b.limit)
            && (ending.FirstLineRead? ==> NEWLINE in c.out && t.stdout == c.out[..LineLength(c.out)])
            && (ending.StdoutEnded? ==> NEWLINE !in c.out && t.stdout == c.out)
  {
    StartedRunsEnd(b, c, s, reports);
    hide Run, LineLength, CompleteLines, Remainder, AllLines, Streaming, OneLineMissing;
  }

  lemma StreamingAccounts(c: Child, s: State)
    requires Streaming(c, s) && s.channel.Channel?
    ensures Joined(NewLines(c, s)) + s.remainder == s.stdout
  {
    LinesAreTheStream(s.stdout);
    AllLinesAreTheStream(s.stdout);
    hide CompleteLines, Remainder, AllLines, Joined;
    assert Joined(AllLines(s.stdout)) + [] == Joined(AllLines(s.stdout));
  }

  /** What the lines sent come to at an ending. */
  predicate Accounts(c: Child, s: State, ending: Ending) {
    s.channel.Channel? && c.before <= s.channel.sent &&
    var lines := NewLines(c, s);
    match ending
    case FirstLineRead => lines == [] && s.remainder < s.stdout
    case Refused(line) =>
      && line != [] && Joined(lines) + line + s.remainder == s.stdout
      && |lines| < |AllLines(s.stdout)| && lines + [line] == AllLines(s.stdout)[..|lines| + 1]
    case _ =>
      && Joined(lines) + s.remainder == s.stdout
      && lines == if s.stdoutOpen then CompleteLines(s.stdout) else AllLines(s.stdout)
  }

  /** At every end the new lines and the remainder are the stdout collected, in order and whole, but for two: a
      first line that was asked for is not sent, and a refused line is in neither. */
  lemma LinesAccountForStdout(b: Bounds, c: Child, s: State, reports: seq<Report>)
    requires s == Start(c.out, c.err, c.stdin, s.channel) && s.channel.Channel? && s.channel.sent == c.before
    ensures var (t, ending) := Run(b, s, reports); Accounts(c, t, ending)
  {
    StartedRunsEnd(b, c, s, reports);
    ChannelsStay(b, s, reports);
    hide Run, LineLength, CompleteLines, Remainder, AllLines, Joined, Streaming;
    var (t, ending) := Run(b, s, reports);
    if ending.FirstLineRead? {
      assert t.channel.sent[|c.before|..] == [];
    } else if !ending.Refused? {
      StreamingAccounts(c, t);
      StreamingSends(c, t);
    }
  }

  lemma StreamingSends(c: Child, s: State)
    requires Streaming(c, s) && s.channel.Channel?
    ensures NewLines(c, s) == if s.stdoutOpen then CompleteLines(s.stdout) else AllLines(s.stdout)
  {
  }

  lemma {:induction false} ChannelsStay(b: Bounds, s: State, reports: seq<Report>)
    requires s.channel.Channel?
    ensures Run(b, s, reports).0.channel.Channel?
    decreases |reports|
  {
    if !Over(s) && reports != [] {
      StepKeepsTheChannel(b, s, reports[0]);
      hide Step;
      ChannelsStay(b, Step(b, s, reports[0]).0, reports[1..]);
    }
  }

  lemma StepKeepsTheChannel(b: Bounds, s: State, report: Report)
    requires s.channel.Channel?
    ensures Step(b, s, report).0.channel.Channel?
  {
  }

  /** Two exchanges with one child that complete collected and sent the same, however it was read and whatever
      the receivers did meanwhile. */
  lemma ReadSizesDoNotMatter(b: Bounds, c: Child, s: State, reports: seq<Report>, others: seq<Report>)
    requires s == Start(c.out, c.err, c.stdin, s.channel) && s.channel.Channel? && s.channel.sent == c.before
    requires Run(b, s, reports).1.Completed? && Run(b, s, others).1.Completed?
    ensures var (t, u) := (Run(b, s, reports).0, Run(b, s, others).0);
            && t.stdout == u.stdout == c.out && t.stderr == u.stderr == c.err
            && t.channel.Channel? && u.channel.Channel? && t.channel.sent == u.channel.sent == c.before + AllLines(c.out)
  {
    StartedRunsEnd(b, c, s, reports);
    StartedRunsEnd(b, c, s, others);
    ChannelsStay(b, s, reports);
    ChannelsStay(b, s, others);
    hide Run;
    CompletedHasAll(b, c, Run(b, s, reports).0);
    CompletedHasAll(b, c, Run(b, s, others).0);
  }

  lemma CompletedHasAll(b: Bounds, c: Child, s: State)
    requires Ends(b, c, s, Completed) && s.channel.Channel?
    ensures s.stdout == c.out && s.stderr == c.err && s.channel.sent == c.before + AllLines(c.out)
  {
    hide CompleteLines, Remainder, AllLines;
    assert s.channel.sent == c.before + NewLines(c, s);
  }

  // ---------------------------------------------------------------- an exchange ends

  /** What is left to read, to write and to close. */
  function Work(s: State): nat {
    |s.stdoutPipe| + |s.stderrPipe| + |s.pendingStdin| + (if s.stdoutOpen then 1 else 0) + (if s.stderrOpen then 1 else 0)
  }

  /** A report of a stream or stdin that is still in use. */
  predicate Serves(s: State, report: Report) {
    match report
    case Readable(stream, most, _) => most > 0 && if stream.Stdout? then s.stdoutOpen else s.stderrOpen
    case Writable(most) => s.pendingStdin != []
    case _ => false
  }

  lemma ServingMakesProgress(b: Bounds, s: State, report: Report)
    requires Serves(s, report) && Step(b, s, report).1.GoesOn?
    ensures Work(Step(b, s, report).0) < Work(s)
  {
    hide LinesSent, Takes;
  }

  predicate AllServe(b: Bounds, s: State, reports: seq<Report>)
    decreases |reports|
  {
    reports == [] || Over(s) || (Serves(s, reports[0]) && AllServe(b, Step(b, s, reports[0]).0, reports[1..]))
  }

  /** Every exchange that is served ends, after at most one report for each byte and one for each stream. */
  lemma {:induction false} ServedExchangesEnd(b: Bounds, s: State, reports: seq<Report>)
    requires AllServe(b, s, reports) && |reports| >= Work(s)
    ensures !Run(b, s, reports).1.GoesOn?
    decreases |reports|
  {
    if !Over(s) {
      assert Work(s) > 0;
      if Step(b, s, reports[0]).1.GoesOn? {
        ServingMakesProgress(b, s, reports[0]);
        hide Step;
        ServedExchangesEnd(b, Step(b, s, reports[0]).0, reports[1..]);
      }
    }
  }
}
