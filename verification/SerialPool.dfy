/**
 The pool of backend serials 1..16: a round-robin scan over serials neither in use nor
 quarantined.  A quarantined serial may still hold a device the backend never confirmed removed.
 */
module SerialPool {

  const COUNT := 16

  predicate Known(serial: int) {
    1 <= serial <= COUNT
  }

  function AllSerials(): set<nat> {
    set s: nat | s <= COUNT && Known(s)
  }

  /** Serial s is entry s - 1. */
  predicate Flagged(flags: seq<bool>, serial: nat) {
    1 <= serial <= |flags| && flags[serial - 1]
  }

  ghost function Marked(flags: seq<bool>): set<nat> {
    set s: nat | s <= |flags| && Flagged(flags, s)
  }

  function Scan(start: nat, step: nat): nat {
    (start + step) % COUNT
  }

  class Pool {
    const inUse: array<bool>
    const quarantined: array<bool>
    var scanStart: nat

    ghost predicate Valid()
      reads this, inUse, quarantined
    {
      inUse.Length == COUNT == quarantined.Length && inUse != quarantined && scanStart < COUNT
    }

    ghost function InUse(): set<nat>
      reads inUse
    {
      Marked(inUse[..])
    }

    ghost function Quarantined(): set<nat>
      reads quarantined
    {
      Marked(quarantined[..])
    }

    constructor ()
      ensures Valid() && fresh(inUse) && fresh(quarantined)
      ensures InUse() == {} == Quarantined()
    {
      inUse := new bool[COUNT](_ => false);
      quarantined := new bool[COUNT](_ => false);
      scanStart := 0;
    }

    method SetInUse(serial: nat, value: bool)
      requires Valid() && Known(serial)
      modifies inUse
      ensures Valid() && InUse() == if value then old(InUse()) + {serial} else old(InUse()) - {serial}
    {
      inUse[serial - 1] := value;
      assert inUse[..] == old(inUse[..])[serial - 1 := value];
    }

    /** 0 exactly when every serial is in use or quarantined; else one that is neither. */
    method Allocate() returns (serial: nat)
      requires Valid()
      modifies this`scanStart, inUse
      ensures Valid() && Quarantined() == old(Quarantined())
      ensures serial == 0 <==> old(InUse()) + old(Quarantined()) == AllSerials()
      ensures serial == 0 ==> InUse() == old(InUse())
      ensures serial != 0 ==>
        && Known(serial) && serial !in old(InUse()) && serial !in old(Quarantined())
        && InUse() == old(InUse()) + {serial}
        && scanStart == serial % COUNT
      // the first one free, going round from where the last scan stopped
      ensures serial != 0 ==>
        exists step: nat ::
          && step < COUNT && serial == Scan(old(scanStart), step) + 1
          && forall k: nat :: k < step ==> Scan(old(scanStart), k) + 1 in old(InUse()) + old(Quarantined())
    {
      var start := scanStart;
      for step := 0 to COUNT
        invariant Valid() && scanStart == start && InUse() == old(InUse())
        invariant forall k :: 0 <= k < step ==> Unavailable(Scan(start, k))
      {
        var i := Scan(start, step);
        if !inUse[i] && !quarantined[i] {
          assert forall k: nat :: k < step ==> Scan(start, k) + 1 in InUse() + Quarantined() by {
            forall k: nat | k < step ensures Scan(start, k) + 1 in InUse() + Quarantined() {
              assert Unavailable(Scan(start, k));
              assert Flagged(inUse[..], Scan(start, k) + 1) || Flagged(quarantined[..], Scan(start, k) + 1);
            }
          }
          SetInUse(i + 1, true);
          scanStart := (i + 1) % COUNT;
          assert i + 1 in AllSerials() && !old(Flagged(inUse[..], i + 1)) && !old(Flagged(quarantined[..], i + 1));
          return i + 1;
        }
      }
      forall s | s in AllSerials() ensures s in InUse() + Quarantined() {
        var k := (s - 1 + COUNT - start) % COUNT;
        Wraps(start, s - 1);
        assert Unavailable(Scan(start, k));
        assert Flagged(inUse[..], s) || Flagged(quarantined[..], s);
      }
      assert InUse() + Quarantined() == AllSerials();
      return 0;
    }

    ghost predicate Unavailable(i: nat)
      reads inUse, quarantined
    {
      i < inUse.Length && i < quarantined.Length && (inUse[i] || quarantined[i])
    }

    method Release(serial: nat)
      requires Valid()
      modifies inUse
      ensures Valid() && InUse() == old(InUse()) - {serial}
    {
      if serial == 0 || serial > COUNT {
        return;
      }
      SetInUse(serial, false);
    }

    method Quarantine(serial: nat)
      requires Valid()
      modifies inUse, quarantined
      ensures Valid() && InUse() == old(InUse()) - {serial}
      ensures Quarantined() == old(Quarantined()) + if Known(serial) then {serial} else {}
    {
      if serial == 0 || serial > COUNT {
        return;
      }
      SetInUse(serial, false);
      quarantined[serial - 1] := true;
      assert quarantined[..] == old(quarantined[..])[serial - 1 := true];
    }

    method Claim(serial: nat) returns (ok: bool)
      requires Valid()
      modifies inUse
      ensures Valid() && (ok <==> Known(serial) && serial !in old(InUse()) && serial !in Quarantined())
      ensures InUse() == old(InUse()) + if ok then {serial} else {}
    {
      if serial == 0 || serial > COUNT {
        return false;
      }
      if inUse[serial - 1] || quarantined[serial - 1] {
        return false;
      }
      SetInUse(serial, true);
      return true;
    }

    method ClearQuarantine()
      requires Valid()
      modifies quarantined
      ensures Valid() && Quarantined() == {}
    {
      forall i | 0 <= i < quarantined.Length {
        quarantined[i] := false;
      }
    }

    method ClearInUse()
      requires Valid()
      modifies inUse
      ensures Valid() && InUse() == {}
    {
      forall i | 0 <= i < inUse.Length {
        inUse[i] := false;
      }
    }
  }

  lemma Wraps(start: nat, i: nat)
    requires start < COUNT && i < COUNT
    ensures Scan(start, (i + COUNT - start) % COUNT) == i
  {
  }
}
