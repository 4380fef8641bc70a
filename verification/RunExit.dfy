/** What leaving a run raises and what it logs (packages/service/src/agent_runtime_service/run_liveness.py:281-339):
    errors are told apart by identity, here a number. */
module RunExits {
  import opened Wire

  datatype Part = SUPERVISION | CLEANUP | CLOSE_LINE

  datatype Failure = Failure(part: Part, error: nat)

  /** What is raised: nothing, the delivered cancellation, or an error. */
  datatype Raised = Nothing | Cancellation | Error(error: nat)

  datatype Exit = Exit(raised: Raised, logged: seq<Failure>)

  /** A failure met twice counts once, at its first part. */
  function Distinct(failures: seq<Failure>): (d: seq<Failure>)
    ensures forall f :: f in d ==> f in failures
  {
    if failures == [] then []
    else
      var d := Distinct(failures[..|failures| - 1]);
      var last := failures[|failures| - 1];
      if Met(d, last.error) then d else d + [last]
  }

  predicate Met(d: seq<Failure>, error: nat) {
    exists i :: 0 <= i < |d| && d[i].error == error
  }

  function FirstOf(d: seq<Failure>, parts: set<Part>): (f: Option<Failure>)
    ensures f.Some? ==> f.value in d && f.value.part in parts
    ensures f.None? ==> forall x :: x in d ==> x.part !in parts
  {
    if d == [] then None else if d[0].part in parts then Some(d[0]) else FirstOf(d[1..], parts)
  }

  /** The first failure of one of these parts is the one with this error. */
  predicate IsFirst(d: seq<Failure>, parts: set<Part>, error: nat) {
    exists i :: 0 <= i < |d| && d[i].error == error && d[i].part in parts && forall j :: 0 <= j < i ==> d[j].part !in parts
  }

  lemma {:induction false} FirstIsFirst(d: seq<Failure>, parts: set<Part>)
    ensures FirstOf(d, parts).Some? ==> IsFirst(d, parts, FirstOf(d, parts).value.error)
    decreases |d|
  {
    if d != [] && FirstOf(d, parts).Some? {
      if d[0].part !in parts {
        FirstIsFirst(d[1..], parts);
        var e := FirstOf(d, parts).value.error;
        var i :| 0 <= i < |d[1..]| && d[1..][i].error == e && d[1..][i].part in parts
                 && forall j :: 0 <= j < i ==> d[1..][j].part !in parts;
        assert d[i + 1] == d[1..][i] && forall j :: 1 <= j < i + 1 ==> d[j] == d[1..][j - 1];
      } else {
        assert d[0].error == FirstOf(d, parts).value.error;
      }
    }
  }

  predicate SomeOf(d: seq<Failure>, part: Part) {
    exists f :: f in d && f.part == part
  }

  function Without(d: seq<Failure>, f: Failure): seq<Failure> {
    if d == [] then [] else (if d[0] == f then [] else [d[0]]) + Without(d[1..], f)
  }

  function ExitOf(failures: seq<Failure>, cancelled: bool, bodyFailed: bool, cancelRequested: bool): Exit {
    var d := Distinct(failures);
    if cancelled then Exit(Cancellation, d)
    else if cancelRequested then Exit(Nothing, d)
    else
      var cleanup := FirstOf(d, {CLEANUP});
      var raisable := FirstOf(d, {CLEANUP, SUPERVISION});
      var raised := if cleanup.Some? then cleanup else if bodyFailed then None else raisable;
      if raised.None? then Exit(Nothing, d) else Exit(Error(raised.value.error), Without(d, raised.value))
  }

  predicate OnePerError(d: seq<Failure>) {
    forall i, j :: 0 <= i < j < |d| ==> d[i].error != d[j].error
  }

  lemma {:induction false} DistinctMeetsEachErrorOnce(failures: seq<Failure>)
    ensures OnePerError(Distinct(failures))
    ensures forall f :: f in failures ==> Met(Distinct(failures), f.error)
  {
    if failures != [] {
      var before, last := failures[..|failures| - 1], failures[|failures| - 1];
      DistinctMeetsEachErrorOnce(before);
      var d, t := Distinct(before), Distinct(failures);
      assert failures == before + [last];
      forall f | f in failures ensures Met(t, f.error) {
        if f in before {
          var i :| 0 <= i < |d| && d[i].error == f.error;
          assert t[i] == d[i];
        } else if t != d {
          assert t[|d|] == last;
        }
      }
    }
  }

  lemma {:induction false} WithoutOne(d: seq<Failure>, f: Failure)
    requires OnePerError(d) && f in d
    ensures forall x :: x in Without(d, f) <==> x in d && x != f
    ensures |Without(d, f)| == |d| - 1 && OnePerError(Without(d, f))
    decreases |d|
  {
    assert d == [d[0]] + d[1..];
    if d[0] == f {
      assert forall x :: x in d[1..] ==> x.error != f.error;
      NothingToLeaveOut(d[1..], f);
    } else {
      WithoutOne(d[1..], f);
      var rest := Without(d[1..], f);
      assert forall x :: x in d[1..] ==> x.error != d[0].error;
      assert forall j :: 0 <= j < |rest| ==> rest[j] in rest && rest[j] in d[1..];
      assert Without(d, f) == [d[0]] + rest;
    }
  }

  lemma {:induction false} NothingToLeaveOut(d: seq<Failure>, f: Failure)
    requires f !in d
    ensures Without(d, f) == d
    decreases |d|
  {
    if d != [] {
      assert f !in d[1..];
      NothingToLeaveOut(d[1..], f);
    }
  }

  /** Without a cancellation the first cleanup failure is raised; without one of those, the first supervision
      failure, unless the body raised. */
  lemma CleanupComesFirst(failures: seq<Failure>, bodyFailed: bool)
    ensures var d := Distinct(failures);
            var exit := ExitOf(failures, false, bodyFailed, false);
            && (SomeOf(d, CLEANUP) ==> exit.raised.Error? && IsFirst(d, {CLEANUP}, exit.raised.error))
            && (!SomeOf(d, CLEANUP) && !bodyFailed && SomeOf(d, SUPERVISION) ==>
                  exit.raised.Error? && IsFirst(d, {SUPERVISION}, exit.raised.error))
            && (!SomeOf(d, CLEANUP) && (bodyFailed || !SomeOf(d, SUPERVISION)) ==> exit == Exit(Nothing, d))
  {
    var d := Distinct(failures);
    hide Distinct, FirstOf;
    FirstIsFirst(d, {CLEANUP});
    FirstIsFirst(d, {CLEANUP, SUPERVISION});
    if FirstOf(d, {CLEANUP}).None? && FirstOf(d, {CLEANUP, SUPERVISION}).Some? {
      var e := FirstOf(d, {CLEANUP, SUPERVISION}).value.error;
      var i :| 0 <= i < |d| && d[i].error == e && d[i].part in {CLEANUP, SUPERVISION}
               && forall j :: 0 <= j < i ==> d[j].part !in {CLEANUP, SUPERVISION};
      assert d[i] in d;
      assert IsFirst(d, {SUPERVISION}, e);
    }
  }

  /** No failure is lost and none is told twice: each error met is either raised or logged, once. A
      delivered cancellation always wins, and a close-line failure is never raised. */
  lemma EveryFailureIsToldOnce(failures: seq<Failure>, cancelled: bool, bodyFailed: bool, cancelRequested: bool)
    ensures var exit := ExitOf(failures, cancelled, bodyFailed, cancelRequested);
            && OnePerError(exit.logged)
            && (forall f :: f in failures ==> (exit.raised == Error(f.error)) != Met(exit.logged, f.error))
            && (cancelled ==> exit.raised.Cancellation?)
            && (cancelRequested || cancelled ==> !exit.raised.Error?)
            && (exit.raised.Error? ==> exists f :: f in failures && f.error == exit.raised.error && !f.part.CLOSE_LINE?)
  {
    var d := Distinct(failures);
    var exit := ExitOf(failures, cancelled, bodyFailed, cancelRequested);
    DistinctMeetsEachErrorOnce(failures);
    if exit.raised.Error? {
      var cleanup := FirstOf(d, {CLEANUP});
      var raised := if cleanup.Some? then cleanup.value else FirstOf(d, {CLEANUP, SUPERVISION}).value;
      hide Distinct, FirstOf, Without;
      WithoutOne(d, raised);
      forall f | f in failures ensures (raised.error == f.error) != Met(exit.logged, f.error) {
        ToldOnce(d, raised, exit.logged, f.error);
      }
    }
  }

  lemma ToldOnce(d: seq<Failure>, raised: Failure, logged: seq<Failure>, error: nat)
    requires OnePerError(d) && raised in d && Met(d, error)
    requires forall x :: x in logged <==> x in d && x != raised
    ensures (raised.error == error) != Met(logged, error)
  {
    var i :| 0 <= i < |d| && d[i].error == error;
    if d[i] == raised {
      assert forall j :: 0 <= j < |logged| ==> logged[j] in logged && logged[j] in d;
    } else {
      assert d[i] in logged;
    }
  }

  /** A failure is logged where it was met first; one whose error was met before adds nothing. */
  lemma FailuresAreMetInOrder(failures: seq<Failure>, last: Failure)
    ensures Distinct(failures + [last]) ==
            Distinct(failures) + if exists f :: f in failures && f.error == last.error then [] else [last]
  {
    assert (failures + [last])[..|failures|] == failures;
    DistinctMeetsEachErrorOnce(failures);
    var d := Distinct(failures);
    if Met(d, last.error) {
      var i :| 0 <= i < |d| && d[i].error == last.error;
      assert d[i] in failures;
    }
    assert d + [] == d;
  }

  lemma {:induction false} WithoutKeepsTheOrder(d: seq<Failure>, i: nat)
    requires OnePerError(d) && i < |d|
    ensures Without(d, d[i]) == d[..i] + d[i + 1..]
    decreases |d|
  {
    var first, rest := d[0], d[1..];
    OneErrorEach(d);
    hide OnePerError;
    if i == 0 {
      NothingToLeaveOut(rest, first);
    } else {
      WithoutKeepsTheOrder(rest, i - 1);
      assert rest[i - 1] == d[i] && first != d[i];
      assert d[..i] == [first] + rest[..i - 1] && rest[i..] == d[i + 1..];
      assert [first] + (rest[..i - 1] + rest[i..]) == ([first] + rest[..i - 1]) + rest[i..];
    }
  }

  lemma OneErrorEach(d: seq<Failure>)
    requires OnePerError(d) && d != []
    ensures d[0] !in d[1..] && OnePerError(d[1..])
    ensures forall i :: 1 <= i < |d| ==> d[i] != d[0]
  {
    assert forall i :: 1 <= i < |d| ==> d[i].error != d[0].error;
  }

  /** The failure at `i` has the error, and the others are left. */
  predicate IsLeftOut(d: seq<Failure>, i: int, error: nat, left: seq<Failure>) {
    0 <= i < |d| && d[i].error == error && left == d[..i] + d[i + 1..]
  }

  /** Everything but what is raised is logged, in the order it was met first. */
  lemma TheRestIsLoggedInOrder(failures: seq<Failure>, cancelled: bool, bodyFailed: bool, cancelRequested: bool,
                               d: seq<Failure>, exit: Exit)
    requires d == Distinct(failures) && exit == ExitOf(failures, cancelled, bodyFailed, cancelRequested)
    ensures !exit.raised.Error? ==> exit.logged == d
    ensures exit.raised.Error? ==> exists i :: IsLeftOut(d, i, exit.raised.error, exit.logged)
  {
    DistinctMeetsEachErrorOnce(failures);
    if exit.raised.Error? {
      var cleanup := FirstOf(d, {CLEANUP});
      var raised := if cleanup.Some? then cleanup.value else FirstOf(d, {CLEANUP, SUPERVISION}).value;
      assert exit.logged == Without(d, raised) && exit.raised.error == raised.error;
      OneIsLeftOut(d, raised);
    }
  }

  lemma OneIsLeftOut(d: seq<Failure>, raised: Failure)
    requires OnePerError(d) && raised in d
    ensures exists i :: IsLeftOut(d, i, raised.error, Without(d, raised))
  {
    var i :| 0 <= i < |d| && d[i] == raised;
    WithoutKeepsTheOrder(d, i);
    assert IsLeftOut(d, i, raised.error, Without(d, raised));
  }
}
