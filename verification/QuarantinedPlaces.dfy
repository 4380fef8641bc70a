/** The quarantine and the places it holds as they are updated (packages/service/src/agent_runtime_service/quarantine.py:30-73
    with admission.py:18-51 and run_events.py:210-236): every region is a step of the machine of `Quarantines`. */
module QuarantinedPlaces {
  import opened Wire
  import opened Admission
  import Q = Quarantines

  /** A run whose place is kept: the lease that took it over, and the groups not confirmed gone. */
  datatype Retry = Retry(lease: Option<Lease>, unconfirmed: seq<Q.Group>)

  type Names = map<Lease, Q.LeaseId>

  /** The leases that hold places are those of the machine, each under its own number. */
  ghost predicate SamePlaces(holders: set<Lease>, names: Names, h: Q.House) {
    && (forall l :: l in holders ==> l in names)
    && (forall l :: l in names ==> names[l] < h.made && (l in holders <==> names[l] in h.holders))
    && (forall l, m :: l in names && m in names && names[l] == names[m] ==> l == m)
    && |holders| == |h.holders|
  }

  ghost predicate SameLease(slot: AdmissionSlot, names: Names, lease: Option<Lease>, l: Option<Q.LeaseId>) {
    lease.Some? == l.Some? && (lease.Some? ==> lease.value.slot == slot && lease.value in names && names[lease.value] == l.value)
  }

  ghost predicate SameRuns(slot: AdmissionSlot, names: Names, leases: map<Q.RunId, Option<Lease>>, h: Q.House) {
    leases.Keys == h.runs.Keys && forall r :: r in leases ==> SameLease(slot, names, leases[r], h.runs[r].lease)
  }

  ghost predicate SameRetries(slot: AdmissionSlot, names: Names, retries: map<Q.RunId, Retry>, h: Q.House) {
    && retries.Keys == h.held.Keys
    && forall r :: r in retries ==>
         SameLease(slot, names, retries[r].lease, h.held[r].lease) && retries[r].unconfirmed == h.held[r].unconfirmed
  }

  lemma TakingNames(holders: set<Lease>, names: Names, h: Q.House, l: Lease, t: Q.House)
    requires SamePlaces(holders, names, h) && l !in names && h.made !in h.holders
    requires t.made == h.made + 1 && t.holders == h.holders + {h.made}
    ensures SamePlaces(holders + {l}, names[l := h.made], t)
  {
  }

  lemma ReleasingNames(holders: set<Lease>, names: Names, h: Q.House, l: Lease, t: Q.House)
    requires SamePlaces(holders, names, h) && l in names
    requires t.made == h.made && t.holders == h.holders - {names[l]}
    ensures SamePlaces(holders - {l}, names, t)
  {
    if l in holders {
      assert |holders - {l}| == |holders| - 1 && |h.holders - {names[l]}| == |h.holders| - 1;
    } else {
      assert holders - {l} == holders && t.holders == h.holders;
    }
  }

  class Quarantine {
    const slot: AdmissionSlot
    var leases: map<Q.RunId, Option<Lease>>
    var retries: map<Q.RunId, Retry>
    ghost var names: Names
    ghost var house: Q.House

    ghost predicate Valid()
      reads this, slot
    {
      && slot.Valid() && Q.Inv(house) && house.places == slot.places
      && SamePlaces(slot.holders, names, house)
      && SameRuns(slot, names, leases, house) && SameRetries(slot, names, retries, house)
    }

    constructor (slot: AdmissionSlot)
      requires slot.Valid() && slot.holders == {}
      ensures Valid() && this.slot == slot && house == Q.Open(slot.places)
    {
      this.slot, leases, retries, names, house := slot, map[], map[], map[], Q.Open(slot.places);
      new;
      Q.OpenHousesAreSound(slot.places);
    }

    /** A place for an admitted run, if one is free. */
    method TryTake(run: Q.RunId) returns (taken: Option<Lease>)
      requires Valid() && run !in leases
      modifies this, slot
      ensures Valid() && house == Q.Next(old(house), Q.Admit(run))
      ensures taken.None? <==> |old(house).holders| == old(house).places
    {
      hide Q.Inv, SamePlaces, SameRetries, SameRuns;
      ghost var before := house;
      SameCount(slot.holders, names, house);
      RunsAreKnown(slot, names, leases, house);
      Q.EveryStepKeepsTheInvariant(house, Q.Admit(run));
      NothingIsMadeYet(house);
      taken := slot.TryTake();
      house := Q.Next(house, Q.Admit(run));
      if taken.Some? {
        TakingNames(old(slot.holders), names, before, taken.value, house);
        MoreNamesForRuns(slot, names, taken.value, before.made, leases, before);
        MoreNamesForRetries(slot, names, taken.value, before.made, retries, before);
        names := names[taken.value := before.made];
        leases := leases[run := taken];
        AdmittedRuns(slot, names, old(leases), retries, before, run, taken.value);
      }
    }

    /** The end of a run: its place is handed over when it lost groups, before its own lease is released. */
    method EndRun(run: Q.RunId, losses: seq<Q.Group>)
      requires Valid() && Q.Enabled(house, Q.End(run, losses))
      modifies this, slot
      ensures Valid() && house == Q.Next(old(house), Q.End(run, losses))
    {
      hide Q.Inv, Q.Next, SamePlaces, SameRetries, SameRuns;
      ghost var before := house;
      RunsAreKnown(slot, names, leases, before);
      Q.EveryStepKeepsTheInvariant(before, Q.End(run, losses));
      EndsAreTold(before, run, losses);
      LeaseIsKnown(slot, names, leases, before, run);
      house := Q.Next(house, Q.End(run, losses));
      EndedRuns(slot, names, leases, before, run, losses, house);
      var lease := leases[run];
      if losses != [] {
        Hold(run, lease, losses, before);
      }
      if lease.Some? {
        if losses == [] {
          ReleasingNames(slot.holders, names, before, lease.value, house);
        }
        lease.value.Release();
        assert losses != [] ==> slot.holders == old(slot.holders) - {lease.value} + {retries[run].lease.value};
      }
      if losses == [] {
        SameHeld(slot, names, retries, before, house);
      }
      if lease.None? {
        SameHolders(slot.holders, names, before, house);
      }
    }

    /** The quarantine takes the place over; a run without one has its groups retried all the same. */
    method Hold(run: Q.RunId, lease: Option<Lease>, groups: seq<Q.Group>, ghost before: Q.House)
      requires slot.Valid() && SamePlaces(slot.holders, names, before) && before.made !in before.holders
      requires SameRuns(slot, names, leases, house) && SameRetries(slot, names, retries, before)
      requires lease.Some? ==> lease.value.slot == slot && lease.value in names && lease.value in slot.holders
      requires house.held == before.held[run := Q.HeldRun(if lease.None? then None else Some(before.made), groups)]
      requires lease.Some? ==> house.made == before.made + 1 && house.holders == before.holders - {names[lease.value]} + {before.made}
      modifies this`retries, this`names, slot
      ensures slot.Valid() && SameRuns(slot, names, leases, house) && SameRetries(slot, names, retries, house)
      ensures run in retries && (retries[run].lease.Some? <==> lease.Some?)
      ensures lease.None? ==> slot.holders == old(slot.holders) && names == old(names)
      ensures lease.Some? ==>
                && SamePlaces(slot.holders, names, house)
                && slot.holders == old(slot.holders) - {lease.value} + {retries[run].lease.value} && lease.value !in slot.holders
    {
      hide Q.Inv, SamePlaces, SameRetries, SameRuns;
      if lease.None? {
        retries := retries[run := Retry(None, groups)];
        HeldRuns(slot, names, old(retries), before, run, retries[run], house);
      } else {
        var held := TakeOver(lease.value, before);
        retries := retries[run := Retry(Some(held), groups)];
        HeldRuns(slot, names, old(retries), before, run, retries[run], house);
      }
    }

    /** The place of a lease moves to a new one. */
    method TakeOver(lease: Lease, ghost before: Q.House) returns (held: Lease)
      requires slot.Valid() && SamePlaces(slot.holders, names, before) && before.made !in before.holders
      requires SameRuns(slot, names, leases, house) && SameRetries(slot, names, retries, before)
      requires lease.slot == slot && lease in names && lease in slot.holders
      requires house.made == before.made + 1 && house.holders == before.holders - {names[lease]} + {before.made}
      modifies this`names, slot
      ensures slot.Valid() && SamePlaces(slot.holders, names, house) && SameRuns(slot, names, leases, house)
      ensures SameRetries(slot, names, retries, before) && held.slot == slot && held in names && names[held] == before.made
      ensures slot.holders == old(slot.holders) - {lease} + {held} && lease !in slot.holders
    {
      hide Q.Inv, SamePlaces, SameRetries, SameRuns;
      ghost var between := before.(holders := before.holders - {names[lease]});
      ReleasingNames(slot.holders, names, before, lease, between);
      AllAreNamed(slot.holders, names, before);
      held := lease.Transfer();
      TakingNames(old(slot.holders) - {lease}, names, between, held, house);
      MoreNamesForRuns(slot, names, held, before.made, leases, house);
      MoreNamesForRetries(slot, names, held, before.made, retries, before);
      names := names[held := before.made];
    }

    /** One pass over the groups not confirmed gone: the place is freed once none is left. */
    method RetryOnce(run: Q.RunId, answers: seq<bool>)
      requires Valid() && Q.Enabled(house, Q.Retry(run, answers))
      modifies this, slot
      ensures Valid() && house == Q.Next(old(house), Q.Retry(run, answers))
    {
      hide Q.Inv, Q.Next, Q.StillThere, SamePlaces, SameRetries, SameRuns;
      ghost var before := house;
      RetryIsKnown(slot, names, retries, before, run);
      Q.EveryStepKeepsTheInvariant(before, Q.Retry(run, answers));
      RetriesAreTold(before, run, answers);
      var held := retries[run];
      var unconfirmed := StillUnconfirmed(held.unconfirmed, answers);
      house := Q.Next(house, Q.Retry(run, answers));
      SameRunsStay(slot, names, leases, before, house);
      if unconfirmed != [] {
        retries := retries[run := Retry(held.lease, unconfirmed)];
        HeldRuns(slot, names, old(retries), before, run, retries[run], house);
        SameHolders(slot.holders, names, before, house);
        return;
      }
      retries := retries - {run};
      FewerRetries(slot, names, old(retries), before, run, house);
      if held.lease.Some? {
        ReleasingNames(slot.holders, names, before, held.lease.value, house);
        held.lease.value.Release();
      } else {
        SameHolders(slot.holders, names, before, house);
      }
    }

    /** The groups that did not answer that they are gone, in their order. */
    method StillUnconfirmed(groups: seq<Q.Group>, answers: seq<bool>) returns (left: seq<Q.Group>)
      requires |groups| == |answers|
      ensures left == Q.StillThere(groups, answers)
    {
      left := [];
      assert groups[0..] == groups && answers[0..] == answers;
      NoneStillThere();
      hide Q.StillThere;
      for i := 0 to |groups|
        invariant left + Q.StillThere(groups[i..], answers[i..]) == Q.StillThere(groups, answers)
      {
        StillThereFrom(left, groups, answers, i);
        if !answers[i] {
          left := left + [groups[i]];
        }
      }
      assert groups[|groups|..] == [] && answers[|groups|..] == [] && left + [] == left;
    }
  }

  lemma NoneStillThere()
    ensures Q.StillThere([], []) == []
  {
  }

  lemma StillThereFrom(left: seq<Q.Group>, groups: seq<Q.Group>, answers: seq<bool>, i: nat)
    requires i < |groups| == |answers|
    ensures left + Q.StillThere(groups[i..], answers[i..])
            == (left + if answers[i] then [] else [groups[i]]) + Q.StillThere(groups[i + 1..], answers[i + 1..])
  {
    assert groups[i..][1..] == groups[i + 1..] && answers[i..][1..] == answers[i + 1..];
  }

  lemma SameHolders(holders: set<Lease>, names: Names, h: Q.House, t: Q.House)
    requires SamePlaces(holders, names, h) && t.holders == h.holders && t.made == h.made
    ensures SamePlaces(holders, names, t)
  {
  }

  lemma SameHeld(slot: AdmissionSlot, names: Names, retries: map<Q.RunId, Retry>, h: Q.House, t: Q.House)
    requires SameRetries(slot, names, retries, h) && t.held == h.held
    ensures SameRetries(slot, names, retries, t)
  {
  }

  lemma SameRunsStay(slot: AdmissionSlot, names: Names, leases: map<Q.RunId, Option<Lease>>, h: Q.House, t: Q.House)
    requires SameRuns(slot, names, leases, h) && t.runs == h.runs
    ensures SameRuns(slot, names, leases, t)
  {
  }

  lemma LeaseIsKnown(slot: AdmissionSlot, names: Names, leases: map<Q.RunId, Option<Lease>>, h: Q.House, run: Q.RunId)
    requires SameRuns(slot, names, leases, h) && SamePlaces(slot.holders, names, h) && run in h.runs
    requires h.runs[run].lease.Some? ==> h.runs[run].lease.value in h.holders
    ensures run in leases && SameLease(slot, names, leases[run], h.runs[run].lease)
    ensures leases[run].Some? ==> leases[run].value in slot.holders
  {
  }

  lemma RetryIsKnown(slot: AdmissionSlot, names: Names, retries: map<Q.RunId, Retry>, h: Q.House, run: Q.RunId)
    requires SameRetries(slot, names, retries, h) && run in h.held
    ensures run in retries && SameLease(slot, names, retries[run].lease, h.held[run].lease)
    ensures retries[run].unconfirmed == h.held[run].unconfirmed
  {
  }

  lemma EndedRuns(slot: AdmissionSlot, names: Names, leases: map<Q.RunId, Option<Lease>>, h: Q.House, run: Q.RunId,
                  losses: seq<Q.Group>, t: Q.House)
    requires SameRuns(slot, names, leases, h) && run in h.runs
    requires t.runs == h.runs[run := Q.AdmittedRun(h.runs[run].lease, true, losses)]
    ensures SameRuns(slot, names, leases, t)
  {
  }

  lemma HeldRuns(slot: AdmissionSlot, names: Names, retries: map<Q.RunId, Retry>, h: Q.House, run: Q.RunId, kept: Retry, t: Q.House)
    requires SameRetries(slot, names, retries, h) && run in t.held && t.held == h.held[run := t.held[run]]
    requires SameLease(slot, names, kept.lease, t.held[run].lease) && kept.unconfirmed == t.held[run].unconfirmed
    ensures SameRetries(slot, names, retries[run := kept], t)
  {
  }

  lemma FewerRetries(slot: AdmissionSlot, names: Names, retries: map<Q.RunId, Retry>, h: Q.House, run: Q.RunId, t: Q.House)
    requires SameRetries(slot, names, retries, h) && t.held == h.held - {run}
    ensures SameRetries(slot, names, retries - {run}, t)
  {
  }

  lemma AllAreNamed(holders: set<Lease>, names: Names, h: Q.House)
    requires SamePlaces(holders, names, h)
    ensures forall l :: l in holders ==> l in names
  {
  }

  lemma MoreNamesForRuns(slot: AdmissionSlot, names: Names, l: Lease, n: Q.LeaseId, leases: map<Q.RunId, Option<Lease>>, h: Q.House)
    requires SameRuns(slot, names, leases, h) && l !in names
    ensures SameRuns(slot, names[l := n], leases, h)
  {
  }

  lemma MoreNamesForRetries(slot: AdmissionSlot, names: Names, l: Lease, n: Q.LeaseId, retries: map<Q.RunId, Retry>, h: Q.House)
    requires SameRetries(slot, names, retries, h) && l !in names
    ensures SameRetries(slot, names[l := n], retries, h)
  {
  }

  lemma RetriesAreTold(h: Q.House, run: Q.RunId, answers: seq<bool>)
    requires Q.Inv(h) && Q.Enabled(h, Q.Retry(run, answers))
    ensures var left := Q.StillThere(h.held[run].unconfirmed, answers);
            var lease := h.held[run].lease;
            var t := Q.Next(h, Q.Retry(run, answers));
            && t.runs == h.runs && t.places == h.places && t.made == h.made
            && t.held == (if left != [] then h.held[run := Q.HeldRun(lease, left)] else h.held - {run})
            && t.holders == (if left == [] && lease.Some? then h.holders - {lease.value} else h.holders)
  {
    Q.RetryingTold(h, run, answers);
    hide Q.Retried, Q.StillThere;
  }

  lemma SameCount(holders: set<Lease>, names: Names, h: Q.House)
    requires SamePlaces(holders, names, h)
    ensures |holders| == |h.holders|
  {
  }

  lemma RunsAreKnown(slot: AdmissionSlot, names: Names, leases: map<Q.RunId, Option<Lease>>, h: Q.House)
    requires SameRuns(slot, names, leases, h)
    ensures leases.Keys == h.runs.Keys
  {
  }

  lemma AdmittedRuns(slot: AdmissionSlot, names: Names, leases: map<Q.RunId, Option<Lease>>, retries: map<Q.RunId, Retry>,
                     h: Q.House, run: Q.RunId, l: Lease)
    requires SameRuns(slot, names, leases, h) && SameRetries(slot, names, retries, h) && run !in h.runs
    requires l.slot == slot && l in names && names[l] == h.made && |h.holders| < h.places
    ensures var t := Q.Next(h, Q.Admit(run));
            SameRuns(slot, names, leases[run := Some(l)], t) && SameRetries(slot, names, retries, t)
  {
  }

  lemma NothingIsMadeYet(h: Q.House)
    requires Q.Inv(h)
    ensures h.made !in h.holders && forall l :: l in h.holders ==> l < h.made
  {
    assert forall l :: l in h.holders ==> Q.LeaseFits(h, l);
  }

  lemma EndsAreTold(h: Q.House, run: Q.RunId, losses: seq<Q.Group>)
    requires Q.Inv(h) && Q.Enabled(h, Q.End(run, losses))
    ensures var lease := h.runs[run].lease;
            var t := Q.Next(h, Q.End(run, losses));
            && h.made !in h.holders && run !in h.held
            && t.runs == h.runs[run := Q.AdmittedRun(lease, true, losses)] && t.places == h.places
            && (lease.Some? ==> lease.value in h.holders)
            && t.held == (if losses == [] then h.held
                          else h.held[run := Q.HeldRun(if lease.None? then None else Some(h.made), losses)])
            && t.made == (if lease.Some? && losses != [] then h.made + 1 else h.made)
            && t.holders == (if lease.None? then h.holders
                             else if losses == [] then h.holders - {lease.value} else h.holders - {lease.value} + {h.made})
  {
    NothingIsMadeYet(h);
    Q.EndingTold(h, run, losses);
    assert run in h.held ==> Q.HeldFits(h, run);
    hide Q.Ended;
  }
}
