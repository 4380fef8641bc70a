/** Killing and counting a group until it is gone, within a bound (src/agent_runtime/spawn.py:782-815, 924-937
    and 1070-1083). Instants are real numbers; the clock and the counts are parameters. */
module KillingUntilGone {
  import opened Wire

  const CENSUS_INTERVAL := 0.1

  datatype Census = EMPTY | LIVE | UNAVAILABLE

  datatype Result = Result(census: Census, endedInTime: bool) {
    predicate Confirmed() {
      endedInTime && census.EMPTY?
    }
  }

  /** What the attempts meet: each one's count and the instant it ended, what the clock reads after the wait
      that follows it, and by how much a wait may end early, as a timer does by its clock's resolution. */
  datatype World = World(startedAt: real, census: nat -> Census, endedAt: nat -> real, wokeAt: nat -> real, early: real)
  {
    /** How far apart two attempts start at least. */
    function Apart(): real {
      CENSUS_INTERVAL - early
    }
  }

  /** The clock does not run backwards, and a wait ends earlier than its instant by less than an interval. */
  ghost predicate ClockMoves(w: World) {
    0.0 <= w.early < CENSUS_INTERVAL && w.endedAt(0) >= w.startedAt && forall k: nat :: MovesOn(w, k)
  }

  predicate MovesOn(w: World, k: nat) {
    w.wokeAt(k) >= w.endedAt(k) + w.Apart() && w.endedAt(k + 1) >= w.wokeAt(k)
  }

  function NextCensusStart(census: Census, ended: real, deadline: real): Option<real> {
    if !census.LIVE? then None
    else if ended + CENSUS_INTERVAL < deadline then Some(ended + CENSUS_INTERVAL) else None
  }

  function StartOf(w: World, k: nat): real {
    if k == 0 then w.startedAt else w.wokeAt(k - 1)
  }

  function Ceiling(x: real): int {
    -((-x).Floor)
  }

  /** Each attempt starts later than the one before it by an interval, less what a wait may end early. */
  lemma {:induction false} StartsAreApart(w: World, k: nat)
    requires ClockMoves(w)
    ensures StartOf(w, k) >= w.startedAt + k as real * w.Apart()
    ensures w.endedAt(k) >= StartOf(w, k)
    decreases k
  {
    if k > 0 {
      StartsAreApart(w, k - 1);
      assert MovesOn(w, k - 1);
      assert k as real * w.Apart() == (k - 1) as real * w.Apart() + w.Apart();
    }
  }

  lemma LessOfAPart(a: real, b: real, part: real)
    requires part > 0.0 && a * part < b * part
    ensures a < b
  {
  }

  lemma FitsLessOften(k: real, part: real, whole: real)
    requires part > 0.0 && k * part < whole
    ensures k < whole / part
  {
    assert (whole / part) * part == whole;
    LessOfAPart(k, whole / part, part);
  }

  lemma BelowMeansBelowTheCeiling(k: nat, x: real)
    requires k as real < x
    ensures k + 1 <= Ceiling(x)
  {
  }

  lemma StartsBeforeTheDeadlineAreFew(w: World, k: nat, within: real)
    requires ClockMoves(w) && within >= 0.0 && StartOf(w, k) < w.startedAt + within
    ensures k + 1 <= MostAttempts(w, within)
  {
    StartsAreApart(w, k);
    hide StartOf, Ceiling;
    FitsLessOften(k as real, w.Apart(), within);
    BelowMeansBelowTheCeiling(k, within / w.Apart());
  }

  /** How often attempts that far apart fit into the bound, rounded up. */
  function MostAttempts(w: World, within: real): int
    requires w.early < CENSUS_INTERVAL
  {
    Ceiling(within / w.Apart())
  }

  /** A further attempt follows one that counted live members, if the next one is due before the deadline and the wait
      for it is over before the deadline. */
  predicate GoesOn(w: World, k: nat, deadline: real) {
    w.census(k) == LIVE && w.endedAt(k) + 0.1 < deadline && w.wokeAt(k) < deadline
  }

  /** The attempts made: each but the last one counted live members and was followed in time, and each but the first one
      started before the deadline. */
  ghost predicate Attempted(w: World, attempts: nat, deadline: real) {
    && (forall k: nat :: k + 1 < attempts ==> w.census(k).LIVE? && GoesOn(w, k, deadline))
    && (forall k: nat :: 0 < k < attempts ==> StartOf(w, k) < deadline)
  }

  /** Makes at least one attempt and at most ⌈within / interval⌉ of them, the interval less what a wait may end early;
      goes on exactly while a count is live and the next attempt comes before the deadline; confirms only a count that
      found the group empty and ended by the deadline. None stands for a bound that is negative. */
  method KillUntilGone(w: World, within: real) returns (attempts: nat, result: Option<Result>)
    requires ClockMoves(w)
    ensures result.None? <==> within < 0.0
    ensures result.None? ==> attempts == 0
    ensures result.Some? ==> 1 <= attempts && (attempts == 1 || attempts <= MostAttempts(w, within))
    ensures result.Some? ==> Attempted(w, attempts, w.startedAt + within) && !GoesOn(w, attempts - 1, w.startedAt + within)
    ensures result.Some? ==> result.value.census == w.census(attempts - 1)
    ensures result.Some? ==> (result.value.endedInTime <==> w.endedAt(attempts - 1) <= w.startedAt + within)
    ensures result.Some? ==> (result.value.Confirmed() <==> w.census(attempts - 1).EMPTY?
                                                            && w.endedAt(attempts - 1) <= w.startedAt + within)
  {
    assert w.early < CENSUS_INTERVAL;
    hide Ceiling, ClockMoves, MostAttempts;
    if within < 0.0 {
      return 0, None;
    }
    var deadline := w.startedAt + within;
    var census, ended := w.census(0), w.endedAt(0);
    attempts := 1;
    while NextCensusStart(census, ended, deadline).Some? && w.wokeAt(attempts - 1) < deadline
      invariant attempts >= 1 && census == w.census(attempts - 1) && ended == w.endedAt(attempts - 1)
      invariant Attempted(w, attempts, deadline)
      invariant attempts == 1 || attempts <= MostAttempts(w, within)
      decreases MostAttempts(w, within) - attempts
    {
      assert StartOf(w, attempts) < deadline;
      StartsBeforeTheDeadlineAreFew(w, attempts, within);
      census, ended := w.census(attempts), w.endedAt(attempts);
      attempts := attempts + 1;
    }
    result := Some(Result(census, ended <= deadline));
  }
}
