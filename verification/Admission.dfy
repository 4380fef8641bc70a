/** The admission limit (packages/service/src/agent_runtime_service/admission.py:22-51): a lease is the
    proof of one place, and frees it once. */
module Admission {
  import opened Wire

  class AdmissionSlot {
    const places: nat
    var holders: set<Lease>

    ghost predicate Valid()
      reads this
    {
      |holders| <= places && forall l :: l in holders ==> l.slot == this
    }

    constructor (places: nat)
      ensures Valid() && this.places == places && holders == {}
    {
      this.places, holders := places, {};
    }

    method TryTake() returns (taken: Option<Lease>)
      requires Valid()
      modifies this
      ensures Valid()
      ensures taken.None? <==> |old(holders)| == places
      ensures taken.None? ==> holders == old(holders)
      ensures taken.Some? ==> fresh(taken.value) && holders == old(holders) + {taken.value}
    {
      if |holders| >= places {
        return None;
      }
      var lease := new Lease(this);
      holders := holders + {lease};
      taken := Some(lease);
    }

    method Free(lease: Lease)
      requires Valid()
      modifies this
      ensures Valid() && holders == old(holders) - {lease}
      ensures |holders| == |old(holders)| - if lease in old(holders) then 1 else 0
    {
      holders := holders - {lease};
    }

    /** The place moves to the successor; of a stale lease there is none to move. */
    method HandOver(lease: Lease) returns (successor: Lease)
      requires Valid()
      modifies this
      ensures Valid() && fresh(successor) && successor.slot == this
      ensures holders == if lease in old(holders) then old(holders) - {lease} + {successor} else old(holders)
      ensures |holders| == |old(holders)|
    {
      successor := new Lease(this);
      if lease in holders {
        holders := holders - {lease};
        holders := holders + {successor};
      }
    }
  }

  class Lease {
    const slot: AdmissionSlot

    constructor (slot: AdmissionSlot)
      ensures this.slot == slot
    {
      this.slot := slot;
    }

    method Release()
      requires slot.Valid()
      modifies slot
      ensures slot.Valid() && slot.holders == old(slot.holders) - {this}
    {
      slot.Free(this);
    }

    /** Afterwards this lease releases nothing. */
    method Transfer() returns (successor: Lease)
      requires slot.Valid()
      modifies slot
      ensures slot.Valid() && fresh(successor) && successor.slot == slot && this !in slot.holders
      ensures slot.holders == if this in old(slot.holders) then old(slot.holders) - {this} + {successor} else old(slot.holders)
    {
      successor := slot.HandOver(this);
    }
  }
}
