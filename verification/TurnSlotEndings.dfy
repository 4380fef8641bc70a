/** How the reap of a turn ends and when its slot comes free: why a group is retained, that a reap which nothing turns
    back frees the slot, and that the retention of a lost group frees it once an attempt confirms the group gone. */
module TurnSlotEndings {
  import opened Wire
  import AL = AnchoredLeaders
  import LG = LostGroups
  import LE = LostGroupEndings
  import opened TurnSlots

  // ---------------------------------------------------------------- the reap

  /** The reap sends SIGTERM and waits only for a leader whose exit is not known, and kills and counts until a count is
      confirmed; it goes on to the release only with its own confirmed count and a published exit. */
  lemma WhereTheReapGoes(t: Turn, step: Step, u: Turn)
    requires Enabled(t, step) && u == Next(t, step)
    ensures match step
            case ReapBegins => u == t.(place := if t.leader.status.returncode.Some? then Killing else Offering)
            case ReapSignals(_, raised) => u == t.(leader := u.leader, place := if raised then Retaining else Grace)
            case GraceEnds(raised) => u == t.(place := if raised then Retaining else Killing)
            case ReapKills(_, killed) =>
              && u == t.(leader := u.leader, place := u.place, emptied := u.emptied)
              && (u.emptied <==> killed == Confirmed)
              && (u.place == Killing <==> killed == Again) && (u.place == AwaitingExit <==> killed == Confirmed)
              && (u.place == Retaining <==> killed == Unconfirmed || killed == Raised)
            case ExitAwaited(published, raised) =>
              && u == t.(place := u.place)
              && (u.place == Retaining <==> raised) && (!raised ==> u.place == Releasing(published))
            case ReapReleases(raised) =>
              && u == t.(leader := u.leader, place := u.place)
              && (u.place == Freeing <==> t.place.exitKnown && !raised)
              && (u.place == Retaining <==> !t.place.exitKnown || raised)
              && (!t.place.exitKnown ==> u.leader == t.leader)
              && (u.place == Freeing ==> u.leader.status.state == AL.RELEASED)
            case ReapFrees => u == t.(place := Freed, held := false, freed := u.freed) && (t.held ==> u.freed == t.freed + [ByReap])
            case ReapRetains => u == t.(place := Retained, retention := Some(LG.RETAINED))
            case OpenFailed => u == t.(place := NotStarted, held := false, freed := u.freed) && (t.held ==> u.freed == t.freed + [ByStart])
            case Opened => u == t.(place := Body)
            case LeaderStep(_) => u == t.(leader := u.leader)
            case RetentionStep(s, _) =>
              && u == t.(leader := u.leader, retention := u.retention, held := u.held, freed := u.freed)
              && u.retention.Some? && u.retention.value == LG.Next(t.retention.value, s)
              && (u.held <==> t.held && !s.ReleaseSlot?)
              && u.freed == t.freed + if t.held && s.ReleaseSlot? then [ByRetention] else []
  {
    hide AL.Next, AL.Enabled, AL.Signalled, LG.Next, LG.Enabled;
    if step.ReapReleases? && t.place.exitKnown {
      ReleasesRelease(t.leader);
    }
  }

  /** A step of the reap that does not turn it back. */
  predicate Good(step: Step) {
    match step
    case ReapSignals(_, raised) => !raised
    case GraceEnds(raised) => !raised
    case ReapKills(_, killed) => killed == Again || killed == Confirmed
    case ExitAwaited(published, raised) => published && !raised
    case ReapReleases(raised) => !raised
    case _ => true
  }

  predicate AllGood(steps: seq<Step>) {
    forall i :: 0 <= i < |steps| ==> Good(steps[i])
  }

  predicate Reaping(t: Turn) {
    !t.place.Retaining? && !t.place.Retained? && (t.place.Releasing? ==> t.place.exitKnown)
  }

  lemma {:induction false} GoodReapsGoOn(t: Turn, steps: seq<Step>)
    requires Possible(t, steps) && Reaping(t) && AllGood(steps)
    ensures Reaping(After(t, steps))
    decreases |steps|
  {
    hide Next, AL.Enabled, LG.Enabled, Sent, RetentionFits;
    if steps != [] {
      WhereTheReapGoes(t, steps[0], Next(t, steps[0]));
      assert Good(steps[0]);
      assert AllGood(steps[1..]) by {
        assert forall i :: 0 <= i < |steps[1..]| ==> steps[1..][i] == steps[i + 1];
      }
      GoodReapsGoOn(Next(t, steps[0]), steps[1..]);
    }
  }

  /** A reap whose steps do not turn it back never retains its group, whatever the leader does meanwhile; and a turn whose
      reap has ended by then has freed its slot. */
  lemma AGoodReapFreesTheSlot(steps: seq<Step>)
    requires Possible(RESERVED, steps) && AllGood(steps)
    ensures var t := After(RESERVED, steps);
            && t.retention.None?
            && (t.place.Freed? ==> t.freed == [ByReap] && !t.held)
            && (t.place.NotStarted? ==> t.freed == [ByStart] && !t.held)
            && (!t.place.Freed? && !t.place.NotStarted? ==> t.freed == [] && t.held)
  {
    ReservedIsSound();
    RunsKeepTheInvariant(RESERVED, steps);
    GoodReapsGoOn(RESERVED, steps);
    hide Possible, After, LeaderOwned;
  }

  /** How much of the reap is left, apart from further attempts to kill and count. */
  function ToReap(place: Place): nat {
    match place
    case Opening => 9 case Body => 8 case Offering => 7 case Grace => 6 case Killing => 5 case AwaitingExit => 4
    case Releasing(_) => 3 case Freeing => 2 case Retaining => 1 case _ => 0
  }

  /** The reap never stops half-way: while the leader's exit is known and nothing else reaped it, a step that does not
      turn it back can always come, and every step but another attempt brings its end nearer. */
  lemma AReapCanGoOn(t: Turn)
    requires Inv(t) && Reaping(t) && t.place != Opening && t.place != NotStarted && t.place != Freed
    requires t.place.Freeing? || (t.leader.status.state.EXITED? && t.leader.kernel.Zombie?)
    ensures var step := NextOfReap(t.place);
            Good(step) && Enabled(t, step) && ToReap(Next(t, step).place) < ToReap(t.place)
  {
    hide AL.Next;
    ExitedIsKnown(t.leader);
    WhereTheReapGoes(t, NextOfReap(t.place), Next(t, NextOfReap(t.place)));
  }

  lemma ExitedIsKnown(l: AL.Leader)
    requires AL.Inv(l)
    ensures l.status.state.EXITED? || l.status.state.RELEASED? ==> l.status.returncode.Some?
  {
  }

  function NextOfReap(place: Place): Step {
    match place
    case Opening => Opened
    case Body => ReapBegins
    case Offering => ReapSignals(false, false)
    case Grace => GraceEnds(false)
    case Killing => ReapKills(false, Confirmed)
    case AwaitingExit => ExitAwaited(true, false)
    case Releasing(_) => ReapReleases(false)
    case Retaining => ReapRetains
    case _ => ReapFrees
  }

  // ---------------------------------------------------------------- the retention

  /** The retention's own steps among a turn's. */
  ghost function RetentionSteps(steps: seq<Step>): seq<LG.Step> {
    if steps == [] then []
    else (if steps[0].RetentionStep? then [steps[0].step] else []) + RetentionSteps(steps[1..])
  }

  /** A retained turn's steps take the retention exactly through its own. */
  lemma {:induction false} TheRetentionTakesItsSteps(t: Turn, steps: seq<Step>)
    requires Possible(t, steps) && t.retention.Some? && t.place == Retained
    ensures LG.Possible(t.retention.value, RetentionSteps(steps))
    ensures var u := After(t, steps);
            u.place == Retained && u.retention == Some(LG.After(t.retention.value, RetentionSteps(steps)))
    decreases |steps|
  {
    hide AL.Next, AL.Enabled, LG.Next, LG.Enabled, RetentionFits;
    if steps != [] {
      var step, more := steps[0], RetentionSteps(steps[1..]);
      RetainedTurnsOnlyRetain(t, step);
      TheRetentionTakesItsSteps(Next(t, step), steps[1..]);
      if step.RetentionStep? {
        assert ([step.step] + more)[0] == step.step && ([step.step] + more)[1..] == more;
      } else {
        assert [] + more == more;
      }
    }
  }

  lemma RetainedTurnsOnlyRetain(t: Turn, step: Step)
    requires Enabled(t, step) && t.retention.Some? && t.place == Retained
    ensures Next(t, step).place == Retained && (step.LeaderStep? || step.RetentionStep?)
    ensures Next(t, step).retention == if step.RetentionStep? then Some(LG.Next(t.retention.value, step.step)) else t.retention
  {
    hide AL.Next, AL.Enabled, LG.Next, LG.Enabled, RetentionFits;
  }

  /** Whatever else happens to the leader and the retention: an attempt on a retained group without one under way, whose
      own steps turn nothing back, can only answer that the group is gone, and then the retention has freed the turn's
      slot; until it has answered, the attempt can go on as far as the leader allows. */
  lemma AGoodAttemptFreesTheSlot(t: Turn, steps: seq<Step>, c: LG.CallId, steps0: seq<LG.Step>)
    requires Inv(t) && t.place == Retained && t.retention.Some? && Possible(t, steps)
    requires var r := t.retention.value; r.present && r.attempt.None? && c !in r.calls
    requires RetentionSteps(steps) == [LG.Begin(c)] + steps0 && LE.AllGood(steps0, c)
    ensures var u := After(t, steps);
            && u.retention.Some? && c in u.retention.value.calls
            && var k := u.retention.value.calls[c];
               (k.place.Answered? ==> k.place == LG.Answered(LG.Gone) && !u.held && u.freed == [ByRetention])
               && (!k.place.Answered? ==> LG.Enabled(u.retention.value, LE.NextGood(k, c)) && LE.Good(LE.NextGood(k, c)))
  {
    hide LG.Inv, LG.Next, LG.Enabled, AL.Inv, Possible, After, LE.AllGood, LE.Good;
    RunsKeepTheInvariant(t, steps);
    TheRetentionTakesItsSteps(t, steps);
    LE.AGoodAttemptConfirmsTheGroup(t.retention.value, c, steps0);
    var u := After(t, steps);
    assert Inv(u);
  }

  /** What an attempt on its way asks of the leader can come while the leader exited and nothing else reaped it. */
  lemma TheLeaderAllowsTheAttempt(t: Turn, c: LG.CallId)
    requires Inv(t) && t.place == Retained && t.retention.Some? && c in t.retention.value.calls
    requires !t.retention.value.calls[c].place.Answered?
    requires t.leader.status.state.EXITED? && t.leader.kernel.Zombie?
    ensures Enabled(t, RetentionStep(LE.NextGood(t.retention.value.calls[c], c), false))
  {
    LE.AnAttemptCanGoOn(t.retention.value, c);
    ExitedIsKnown(t.leader);
    hide LG.Inv, AL.Inv, LG.Enabled;
  }
}
