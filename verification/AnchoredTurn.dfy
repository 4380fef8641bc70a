/** The slots of a CLI's pool and the reap at the end of a turn (src/agent_runtime/anchored_turn.py:40-163): each
    region between two awaits is a step of the machine of `TurnSlots`. */
module AnchoredTurns {
  import opened Wire
  import opened TurnSlots
  import AL = AnchoredLeaders
  import LG = LostGroups

  class CliProcessReservation {
    const pool: CliProcessPool

    constructor (pool: CliProcessPool)
      ensures this.pool == pool
    {
      this.pool := pool;
    }
  }

  class CliProcessPool {
    const limit: nat
    var reservations: set<CliProcessReservation>

    ghost predicate Valid()
      reads this
    {
      |reservations| <= limit
    }

    constructor (limit: nat)
      ensures Valid() && this.limit == limit && reservations == {}
    {
      this.limit, reservations := limit, {};
    }

    method Reserve() returns (slot: Option<CliProcessReservation>)
      requires Valid()
      modifies this
      ensures Valid()
      ensures slot.None? <==> |old(reservations)| == limit
      ensures slot.None? ==> reservations == old(reservations)
      ensures slot.Some? ==> fresh(slot.value) && reservations == old(reservations) + {slot.value}
    {
      var reservation := new CliProcessReservation(this);
      if |reservations| >= limit {
        return None;
      }
      reservations := reservations + {reservation};
      slot := Some(reservation);
    }

    method Release(reservation: CliProcessReservation)
      requires Valid()
      modifies this
      ensures Valid() && reservations == old(reservations) - {reservation}
    {
      reservations := reservations - {reservation};
    }
  }

  /** What the reap meets: what the leader does by itself before each of its regions, whether a call raises, whether
      the group's number was reused, what each attempt counts, and how many attempts the bound allows. */
  datatype World = World(
    others: nat -> seq<AL.Step>, raises: nat -> bool, reused: bool, counts: nat -> Killed, attempts: nat, published: bool)

  function Reused(w: World, l: AL.Leader): bool {
    w.reused && l.kernel.Reaped?
  }

  class AnchoredTurn {
    const pool: CliProcessPool
    const reservation: CliProcessReservation
    var turn: Turn
    ghost var trace: seq<Step>

    ghost predicate Traced()
      reads this
    {
      Possible(RESERVED, trace) && turn == After(RESERVED, trace)
    }

    ghost predicate Valid()
      reads this, pool
    {
      Traced() && pool.Valid() && (reservation in pool.reservations <==> turn.held)
    }

    constructor (pool: CliProcessPool, reservation: CliProcessReservation)
      requires pool.Valid() && reservation in pool.reservations
      ensures Valid() && this.pool == pool && this.reservation == reservation && turn == RESERVED
    {
      this.pool, this.reservation, turn, trace := pool, reservation, RESERVED, [];
    }

    /** One region of the turn's own, or a step of its leader's. */
    method Take(step: Step)
      requires Traced() && Enabled(turn, step)
      modifies this`turn, this`trace
      ensures Traced() && turn == Next(old(turn), step) && trace == old(trace) + [step]
    {
      hide Enabled, Next;
      LongerRuns(RESERVED, trace, step);
      turn := Next(turn, step);
      trace := trace + [step];
    }

    /** The leader's watcher, the kernel and whoever signals the group go on while the reap waits. */
    method Meanwhile(others: seq<AL.Step>)
      requires Traced() && !turn.place.Opening? && !turn.place.NotStarted?
      modifies this`turn, this`trace
      ensures Traced() && turn == old(turn).(leader := turn.leader) && old(trace) <= trace
    {
      hide AL.Enabled, AL.Next;
      for i := 0 to |others|
        invariant Traced() && turn == old(turn).(leader := turn.leader) && old(trace) <= trace
      {
        if !others[i].Release? && AL.Enabled(turn.leader, others[i]) {
          Take(LeaderStep(others[i]));
        }
      }
    }

    /** `child.signal_group(SIGTERM)` and the grace; false when either raised. */
    method OfferSigterm(w: World) returns (offered: bool)
      requires Traced() && turn.place.Offering?
      modifies this`turn, this`trace
      ensures Traced() && old(trace) <= trace && turn == old(turn).(leader := turn.leader, place := turn.place)
      ensures turn.place == if offered then Killing else Retaining
      ensures offered <==> !w.raises(0) && !w.raises(1) && Sent(old(turn).leader, Reused(w, old(turn).leader))
    {
      hide AL.Inv, AL.Next, AL.Signalled;
      RunsAreOwned(trace);
      var reused := Reused(w, turn.leader);
      var raised := w.raises(0) || !Sent(turn.leader, reused);
      Take(ReapSignals(reused, raised));
      if raised {
        return false;
      }
      Meanwhile(w.others(1));
      Take(GraceEnds(w.raises(1)));
      offered := !w.raises(1);
    }

    /** Kills and counts until a count is not live, raises, or the bound is over; None when an attempt raised. */
    method KillUntilGone(w: World) returns (confirmed: Option<bool>)
      requires Traced() && turn.place.Killing?
      modifies this`turn, this`trace
      ensures Traced() && old(trace) <= trace
      ensures turn == old(turn).(leader := turn.leader, place := turn.place, emptied := turn.emptied)
      ensures turn.place == if confirmed == Some(true) then AwaitingExit else Retaining
      ensures confirmed == Some(true) ==> turn.emptied
    {
      hide AL.Inv, AL.Next, AL.Signalled;
      for k := 0 to w.attempts
        invariant Traced() && turn.place.Killing? && old(trace) <= trace
        invariant turn == old(turn).(leader := turn.leader, place := turn.place, emptied := turn.emptied)
      {
        Meanwhile(w.others(k + 2));
        var killed := KillAndCensus(w, w.counts(k));
        match killed
        case Again =>
        case Raised => return None;
        case _ => return Some(killed.Confirmed?);
      }
      var last := KillAndCensus(w, if w.counts(w.attempts).Again? then Unconfirmed else w.counts(w.attempts));
      confirmed := if last.Raised? then None else Some(last.Confirmed?);
    }

    /** One attempt: a leader that is not anchored any more makes it raise. */
    method KillAndCensus(w: World, count: Killed) returns (killed: Killed)
      requires Traced() && turn.place.Killing?
      modifies this`turn, this`trace
      ensures Traced() && old(trace) <= trace
      ensures killed == if Sent(old(turn).leader, Reused(w, old(turn).leader)) then count else Killed.Raised
      ensures turn == old(turn).(leader := turn.leader, place := turn.place, emptied := killed.Confirmed?)
      ensures turn.place == match killed case Again => Killing case Confirmed => AwaitingExit case _ => Retaining
    {
      hide AL.Inv, AL.Next, AL.Signalled;
      RunsAreOwned(trace);
      var reused := Reused(w, turn.leader);
      killed := if Sent(turn.leader, reused) then count else Killed.Raised;
      Take(ReapKills(reused, killed));
    }

    /** Waits for the exit event; None when the leader was lost before its exit was published. */
    method ExitPublished(w: World) returns (published: Option<bool>)
      requires Traced() && turn.place.AwaitingExit?
      modifies this`turn, this`trace
      ensures Traced() && old(trace) <= trace && turn == old(turn).(leader := turn.leader, place := turn.place)
      ensures turn.place == if published.Some? then Releasing(published.value) else Retaining
      ensures published == if w.published && turn.leader.status.returncode.None? then None else Some(w.published)
    {
      Meanwhile(w.others(0));
      var lost := w.published && turn.leader.status.returncode.None?;
      Take(ExitAwaited(w.published && !lost, lost));
      published := if lost then None else Some(w.published);
    }

    /** `child.release()`, if the count and the exit allow it: it raises unless the leader is RELEASED after it, and
        it may raise even then, when a pipe cannot be closed. */
    method ReleaseLeaderIfGone(w: World) returns (released: bool)
      requires Traced() && turn.place.Releasing?
      modifies this`turn, this`trace
      ensures Traced() && old(trace) <= trace && turn == old(turn).(leader := turn.leader, place := turn.place)
      ensures turn.place == if released then Freeing else Retaining
      ensures released <==> old(turn).place.exitKnown && !w.raises(2) && AL.Released(old(turn).leader).status.state.RELEASED?
      ensures released ==> turn.leader.status.state.RELEASED?
    {
      hide AL.Inv, AL.Released;
      RunsAreOwned(trace);
      var known := turn.place.exitKnown;
      var raised := w.raises(2) || !AL.Released(turn.leader).status.state.RELEASED?;
      Take(ReapReleases(raised));
      released := known && !raised;
    }

    /** The group counted empty in time, the exit known and the leader released, or not. */
    method ConfirmGroupGoneAndRelease(w: World) returns (gone: bool)
      requires Traced() && turn.place.Body?
      modifies this`turn, this`trace
      ensures Traced() && old(trace) <= trace && turn.retention == old(turn).retention && turn.held == old(turn).held
      ensures turn.place == if gone then Freeing else Retaining
      ensures gone ==> turn.emptied && turn.leader.status.state.RELEASED?
    {
      hide AL.Inv, AL.Next, AL.Signalled, AL.Released, Sent;
      Take(ReapBegins);
      var offered := true;
      if turn.place.Offering? {
        offered := OfferSigterm(w);
      }
      if !offered {
        return false;
      }
      var confirmed := KillUntilGone(w);
      if confirmed != Some(true) {
        return false;
      }
      var published := ExitPublished(w);
      if published.None? {
        return false;
      }
      gone := ReleaseLeaderIfGone(w);
    }

    /** Frees the slot only after all of that; whatever else happens, the slot stays taken and the group is retained. */
    method ReapProcessGroup(w: World)
      requires Valid() && turn.place.Body? && reservation in pool.reservations
      modifies this`turn, this`trace, pool
      ensures Valid() && old(trace) <= trace
      ensures turn.place.Freed? || (turn.place.Retained? && turn.retention == Some(LG.RETAINED))
      ensures pool.reservations == if turn.place.Freed? then old(pool.reservations) - {reservation} else old(pool.reservations)
      ensures turn.place.Freed? ==> turn.emptied && turn.leader.status.state.RELEASED? && turn.retention == old(turn).retention
    {
      var gone := ConfirmGroupGoneAndRelease(w);
      if !gone {
        Take(ReapRetains);
        return;
      }
      Take(ReapFrees);
      pool.Release(reservation);
    }
  }

  /** In every run the leader is the handle's own, so its handle may signal and release it. */
  lemma RunsAreOwned(steps: seq<Step>)
    requires Possible(RESERVED, steps)
    ensures AL.Enabled(After(RESERVED, steps).leader, AL.Release)
    ensures forall reused :: (reused ==> After(RESERVED, steps).leader.kernel.Reaped?) ==>
              AL.Enabled(After(RESERVED, steps).leader, AL.SignalGroup(reused))
  {
    ReservedIsSound();
    RunsKeepTheInvariant(RESERVED, steps);
    hide After, Possible, AL.Inv, ReapFits, RetentionHolds;
  }

  lemma {:induction false} LongerRuns(t: Turn, steps: seq<Step>, step: Step)
    requires Possible(t, steps) && Enabled(After(t, steps), step)
    ensures Possible(t, steps + [step]) && After(t, steps + [step]) == Next(After(t, steps), step)
    decreases |steps|
  {
    if steps == [] {
      assert [step][1..] == [];
    } else {
      assert (steps + [step])[1..] == steps[1..] + [step];
      LongerRuns(Next(t, steps[0]), steps[1..], step);
    }
  }
}
