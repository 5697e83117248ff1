/**
 The session topology engine.  A topology operation plans the pad changes, plugs what it
 can, commits and publishes, unplugs what was retired, and takes a second round for the
 changes that had to wait.  The backend is adversarial; the topology lock makes the
 operations sequential, so each is one method.
 */
module SessionService {

  import opened Basics
  import opened Pads
  import opened Commit
  import opened Convergence
  import opened Plugs
  import opened Publication
  import opened Sessions
  import SerialPool
  import GamepadMux

  /** Five missed heartbeats, two seconds apart. */
  const TIMEOUT_SECONDS := 2 * 5

  /** What a round leaves of a row just adopted: its session's identity, its epoch in order, its changes' searches. */
  lemma AdoptedRound(was: Rows, rows: Rows, slot: nat, row: Row, first: seq<PadChange>, mid: seq<PadChange>,
                     tried: Searches)
    requires Adopts(was, slot, row) && |rows| == |was| && rows[slot].Some? && rows == was[slot := rows[slot]]
    requires RoundOk(row, rows[slot].value, first, mid, |first|, false) && TriedOk(first, tried)
    ensures Distinct(rows) && TriedOk(mid, tried)
    ensures was[slot].Some? ==> EpochMoves(was[slot].value, rows[slot].value)
  {
    TriedAfter(row, rows[slot].value, first, mid, tried);
    DistinctStays(was[slot := Some(row)], rows, slot);
    AdoptedMoves(was, slot, row, rows[slot].value);
  }

  class Service {
    const pool: SerialPool.Pool
    const mux: GamepadMux.Mux
    var rows: Rows
    var tokens: seq<nat>
    var hot: seq<HotSlot>
    var padOwners: seq<Option<Owner>>
    var activePads: int
    var nextGen: nat
    ghost var use: map<int, Use>
    ghost var lastTried: Searches
    /** How often retired serials have been settled. */
    ghost var settles: nat
    ghost var history: seq<seq<HotSlot>>

    /** The pool's serials in use are exactly the ones accounted for. */
    ghost predicate Coupled()
      reads this, pool, pool.inUse, pool.quarantined, mux, mux.owners
    {
      pool.Valid() && mux.Valid() && pool.InUse() == use.Keys
    }

    ghost function World(): World
      requires Coupled()
      reads this, pool, pool.inUse, pool.quarantined, mux, mux.owners
    {
      Pads.World(rows, use, pool.Quarantined(), mux.Held())
    }

    ghost predicate HotOk()
      reads this
    {
      && |rows| == |hot| == |tokens| == SESSIONS
      && forall k :: 0 <= k < SESSIONS ==> SlotOk(hot[k], tokens[k], rows[k])
    }

    /** What the published words and the counts say of the rows, at every release of the lock. */
    ghost predicate Routed()
      reads this
    {
      && HotOk() && OwnersOk(padOwners, hot) && Distinct(rows) && activePads == Total(rows)
      && HistoriesOk(history, hot, rows)
    }

    /** What holds between topology operations. */
    ghost predicate Valid()
      reads this, pool, pool.inUse, pool.quarantined, mux, mux.owners
    {
      Coupled() && Accounted(World(), [], 0, false, []) && Routed()
    }

    constructor (children: seq<GamepadMux.Port>)
      ensures Valid() && fresh(pool) && fresh(mux) && fresh(pool.inUse) && fresh(pool.quarantined) && fresh(mux.owners)
      ensures forall k :: 0 <= k < SESSIONS ==> rows[k] == None
    {
      pool := new SerialPool.Pool();
      mux := new GamepadMux.Mux(children);
      rows := seq(SESSIONS, _ => None);
      tokens := seq(SESSIONS, _ => 0);
      hot := seq(SESSIONS, _ => HotSlot(0, seq(CONTROLLERS, _ => NO_WORDS), 0, false));
      padOwners := seq(SerialPool.COUNT + 1, _ => None);
      activePads := 0;
      nextGen := 0;
      use := map[];
      lastTried := map[];
      settles := 0;
      history := seq(SESSIONS, _ => []);
      new;
      TotalEmpty(rows);
      FreshTables(rows, tokens, hot, padOwners, history);
    }

    ghost function Supported(): set<nat> {
      set c, i | 0 <= c < |mux.ports| && i in mux.ports[c].supports :: i
    }

    /**
     Between operations the serials in use are exactly the active pads' own, no two alike,
     all of 1..16, none quarantined, each with a device behind it; and there is no device
     on any serial that is neither in use nor quarantined.
     */
    lemma SerialsAreTheActivePads()
      requires Valid()
      ensures forall s: nat :: s in pool.InUse() <==> exists o: Owner :: ActiveAt(rows, o, s)
      ensures forall o, p, s :: ActiveAt(rows, o, s) && ActiveAt(rows, p, s) ==> o == p
      ensures forall s: nat :: s in pool.InUse() ==> SerialPool.Known(s) && s !in pool.Quarantined() && s in mux.Held()
      ensures mux.Held() <= pool.InUse() + pool.Quarantined()
    {
      forall s: nat ensures s in pool.InUse() <==> exists o: Owner :: ActiveAt(rows, o, s) {
        if s in pool.InUse() {
          assert ActiveAt(rows, use[s].owner, s);
        }
      }
    }

    /**
     At every release of the lock the published words name a serial at a pad exactly when
     the row does, the owner table is the inverse of both, and the active count is the pads'.
     */
    lemma HotIsCold(o: Owner, s: nat)
      requires Routed()
      ensures NamedAt(hot, o, s) <==> ActiveAt(rows, o, s)
      ensures s <= SerialPool.COUNT && padOwners[s] == Some(o) <==> ActiveAt(rows, o, s)
      ensures ActiveAt(rows, o, s) ==>
        var word, pad := hot[o.slot].pads[o.index], rows[o.slot].value.controllers[o.index];
        word.caps == pad.caps && word.kind == pad.kind && word.mode == pad.mode && word.gen == pad.gen
      ensures o.slot < SESSIONS && rows[o.slot].Some? ==>
        tokens[o.slot] == rows[o.slot].value.token && hot[o.slot].epoch == rows[o.slot].value.epoch
      ensures activePads == Total(rows)
    {
      if o.slot < SESSIONS {
        assert SlotOk(hot[o.slot], tokens[o.slot], rows[o.slot]);
      }
    }

    /**
     Of all the answers the publications of a slot have given heartbeats, any two with no
     clearing of the slot between them, which are one session's, have epochs in order, and
     the same active pads if the same epoch; the latest is the row's own.
     */
    lemma EpochNamesThePads(slot: nat, j: nat, k: nat)
      requires Routed() && slot < SESSIONS && j <= k < |history[slot]|
      requires forall m :: j <= m <= k ==> history[slot][m].token != 0
      ensures AcksInOrder(AckOf(history[slot][j]), AckOf(history[slot][k]))
      ensures rows[slot].Some? ==>
        history[slot][|history[slot]| - 1] == hot[slot] && AckOf(hot[slot]) == RowAck(rows[slot].value)
    {
      assert HistoryOk(history[slot], hot[slot], rows[slot]);
      SessionAcksInOrder(history[slot], j, k);
      if rows[slot].Some? {
        assert SlotOk(hot[slot], tokens[slot], rows[slot]);
        WordsAck(hot[slot], tokens[slot], rows[slot].value);
      }
    }

    /** An active pad has a bus, so a replug is never planned while the bus is down. */
    lemma ActivePadHasBus(o: Owner, s: nat)
      requires Coupled() && BoundOk(World()) && ActiveAt(rows, o, s)
      ensures mux.BusUp()
    {
      assert s in mux.Held();
    }

    /** A bus is up if any of these pads is active. */
    ghost predicate Served(cs: seq<Controller>)
      reads mux`open
    {
      mux.BusUp() || forall i :: 0 <= i < |cs| ==> !cs[i].active
    }

    lemma RowServed(slot: nat)
      requires Coupled() && BoundOk(World()) && slot < |rows| && rows[slot].Some?
      ensures Served(rows[slot].value.controllers)
    {
      var cs := rows[slot].value.controllers;
      if i: nat :| i < |cs| && cs[i].active {
        ActivePadHasBus(Owner(slot, i), cs[i].serial);
      }
    }

    lemma AdoptedServed(slot: nat, row: Row)
      requires Coupled() && BoundOk(World()) && slot < |rows| && Adopts(rows, slot, row)
      ensures Served(row.controllers)
    {
      if rows[slot].Some? {
        RowServed(slot);
      }
    }

    // ---------- planning ----------

    method AllocateFor(ghost k: nat, ghost index: nat) returns (serial: nat)
      requires Coupled()
      modifies this`use, this`lastTried, pool`scanStart, pool.inUse
      ensures Coupled()
      ensures lastTried == old(lastTried)[index := Search(old(use.Keys) + pool.Quarantined(), settles)]
      ensures serial == 0 ==> World() == old(World()) && FoundAllTaken(lastTried, index)
      ensures serial != 0 ==>
        && SerialPool.Known(serial) && serial !in old(use) && serial !in pool.Quarantined()
        && World() == old(World()).(use := old(use)[serial := Planned(k)])
    {
      lastTried := lastTried[index := Search(use.Keys + pool.Quarantined(), settles)];
      serial := pool.Allocate();
      if serial != 0 {
        use := use[serial := Planned(k)];
      }
    }

    /** The change a descriptor calls for, before any serial is sought. */
    method PlanKind(cs: seq<Controller>, d: Descriptor) returns (pad: PadChange)
      requires |cs| == CONTROLLERS
      ensures pad.desc == d && pad.serial == 0 && !pad.waits && pad.kind != ReplugInPlace
      ensures PlanOk(cs, Supported(), pad)
    {
      pad := PadChange(Refuse, d, Ok, XBOX, 0, 0, false, false, false);
      if d.index >= CONTROLLERS {
        return pad.(result := InvalidIndex);
      }
      var c := cs[d.index];
      var supported := mux.SupportsIdentity(Identity(d.kind));
      if d.kind >= TYPES || !supported {
        return pad.(result := InvalidType, appliedType := if c.active then c.kind else XBOX);
      }
      pad := pad.(appliedType := d.kind);
      if !c.active {
        return pad.(kind := Add);
      }
      if Identity(d.kind) == c.identity {
        return pad.(kind := Update);
      }
      return pad.(kind := Replug);
    }

    /** Seeks a serial for a new change. */
    method ReservePad(ghost pads: seq<PadChange>, pad: PadChange) returns (now: PadChange)
      requires Coupled() && Accounted(World(), pads, 0, false, [])
      requires pad.serial == 0 && !pad.waits && !pad.plugged
      modifies this`use, this`lastTried, pool`scanStart, pool.inUse
      ensures Coupled() && Accounted(World(), pads + [now], 0, false, [])
      ensures now == pad.(serial := now.serial)
      ensures now.serial == 0 ==>
        World() == old(World()) && FoundAllTaken(lastTried, pad.desc.index)
      ensures forall i :: i in old(lastTried) && i != pad.desc.index ==>
        i in lastTried && lastTried[i] == old(lastTried[i])
    {
      var serial := AllocateFor(|pads|, pad.desc.index);
      now := pad.(serial := serial);
      if serial != 0 {
        Reserve(old(World()), pads, false, [], now);
      } else {
        Append(World(), pads, false, [], now);
      }
    }

    method PlanPad(cs: seq<Controller>, d: Descriptor, ghost pads: seq<PadChange>) returns (pad: PadChange)
      requires Coupled() && Accounted(World(), pads, 0, false, [])
      requires |cs| == CONTROLLERS && Served(cs)
      modifies this`use, this`lastTried, pool`scanStart, pool.inUse
      ensures Coupled() && Accounted(World(), pads + [pad], 0, false, [])
      ensures pad.desc == d && PlanOk(cs, Supported(), pad)
      ensures pad.kind in {Add, ReplugInPlace} && pad.serial == 0 ==> FoundAllTaken(lastTried, d.index)
      ensures pad.kind == Replug ==> pad.serial != 0
      ensures forall i :: i in old(lastTried) && i != d.index ==> i in lastTried && lastTried[i] == old(lastTried[i])
    {
      pad := PlanKind(cs, d);
      if pad.kind == Add {
        pad := ReservePad(pads, pad);
        return;
      }
      if pad.kind == Replug {
        var open := mux.IsBusOpen();
        if open {
          pad := ReservePad(pads, pad);
          if pad.serial != 0 {
            return;
          }
          pad := pad.(kind := ReplugInPlace, retiring := cs[d.index].serial, waits := true);
        }
      }
      Append(World(), pads, false, [], pad);
    }

    method PlanStep(cs: seq<Controller>, desired: seq<Descriptor>, m: nat, pads: seq<PadChange>, ghost r: nat)
        returns (now: seq<PadChange>)
      requires Coupled() && Accounted(World(), pads, 0, false, []) && TriedOk(pads, lastTried) && Unplugged(pads)
      requires |cs| == CONTROLLERS && Served(cs) && DistinctDescriptors(desired) && m < |desired|
      requires PlanFor(cs, Supported(), desired, pads, r, m)
      modifies this`use, this`lastTried, pool`scanStart, pool.inUse
      ensures Coupled() && Accounted(World(), now, 0, false, []) && TriedOk(now, lastTried) && Unplugged(now)
      ensures PlanFor(cs, Supported(), desired, now, r, m + 1)
    {
      var pad := PlanPad(cs, desired[m], pads);
      PlanNext(cs, Supported(), desired, pads, r, m, pad);
      TriedNext(pads, old(lastTried), pad, lastTried);
      now := pads + [pad];
    }

    method PlanSession(cs: seq<Controller>, desired: seq<Descriptor>) returns (pads: seq<PadChange>, ghost r: nat)
      requires Coupled() && Accounted(World(), [], 0, false, [])
      requires |cs| == CONTROLLERS && Served(cs) && DistinctDescriptors(desired)
      modifies this`use, this`lastTried, pool`scanStart, pool.inUse
      ensures Coupled() && Accounted(World(), pads, 0, false, []) && TriedOk(pads, lastTried) && Unplugged(pads)
      ensures Deferred(pads)
      ensures PlanFor(cs, Supported(), desired, pads, r, |desired|)
    {
      var planned := PlanRemovals(cs, desired);
      r := |planned|;
      assert planned[..r] == planned;
      NonePending(World(), [], false, [], planned, 0, false);
      for m := 0 to |desired|
        invariant Coupled() && Accounted(World(), planned, 0, false, []) && TriedOk(planned, lastTried)
        invariant Unplugged(planned)
        invariant PlanFor(cs, Supported(), desired, planned, r, m)
      {
        planned := PlanStep(cs, desired, m, planned, r);
      }
      pads := DeferPlan(cs, desired, planned, r);
    }

    /** Lets the plan's unserved additions wait for the serials it frees. */
    method DeferPlan(ghost cs: seq<Controller>, ghost desired: seq<Descriptor>, planned: seq<PadChange>, ghost r: nat)
        returns (pads: seq<PadChange>)
      requires Coupled() && Accounted(World(), planned, 0, false, []) && TriedOk(planned, lastTried) && Unplugged(planned)
      requires |cs| == CONTROLLERS && DistinctDescriptors(desired)
      requires PlanFor(cs, Supported(), desired, planned, r, |desired|)
      ensures Accounted(World(), pads, 0, false, []) && TriedOk(pads, lastTried) && Unplugged(pads) && Deferred(pads)
      ensures PlanFor(cs, Supported(), desired, pads, r, |desired|)
    {
      pads := DeferUnservedAdds(planned);
      DeferredBy(planned, pads, lastTried);
      Relabel(World(), planned, pads, false, []);
      PlanStays(cs, Supported(), desired, planned, r, |desired|, pads);
    }

    // ---------- plugging ----------

    /** Plugs one change if the bus is up: no child holds its serial. */
    method PlugOne(pad: PadChange, open: bool, ghost from: nat) returns (now: PadChange)
      requires Coupled() && SerialPool.Known(pad.serial) && pad.serial !in mux.Held() && from <= |mux.log|
      requires open || NoBusOpens(mux.ports, mux.log, from)
      modifies mux`held, mux`log, mux.owners
      ensures Coupled() && World() == old(World()).(held := old(mux.Held()) + if now.plugged then {pad.serial} else {})
      ensures now == pad.(plugged := now.plugged, busDown := !open)
      ensures old(mux.log) <= mux.log && Attempted(mux.ports, mux.log, from, now)
    {
      now := pad.(plugged := false, busDown := !open);
      if open {
        var ok;
        ghost var n;
        ok, n := mux.PluginDevicePreferring(pad.serial, Identity(pad.desc.kind), pad.desc.backend);
        now := pad.(plugged := ok, busDown := false);
        AskedInTurn(mux.ports, old(mux.log), mux.log, pad, ok, n);
        AttemptedLonger(mux.ports, mux.log, |old(mux.log)|, now, mux.log, from);
      }
    }

    method PlugAll(pads: seq<PadChange>, second: bool, open: bool, ghost from: nat) returns (now: seq<PadChange>)
      requires Coupled() && Accounted(World(), pads, 0, second, []) && from <= |mux.log|
      requires forall k: nat :: Pending(pads, k, 0, second) ==> !pads[k].plugged
      requires open || NoBusOpens(mux.ports, mux.log, from)
      modifies mux`held, mux`log, mux.owners
      ensures Coupled() && old(mux.log) <= mux.log
      ensures Plugging(World(), old(World()), mux.ports, mux.log, from, pads, now, |pads|, second, open)
    {
      now := pads;
      for k := 0 to |pads|
        invariant Coupled() && old(mux.log) <= mux.log && (open || NoBusOpens(mux.ports, mux.log, from))
        invariant Plugging(World(), old(World()), mux.ports, mux.log, from, pads, now, k, second, open)
      {
        ghost var w, log, mid := World(), mux.log, now;
        if PlugsInRound(now[k], second) {
          assert Pending(now, k, 0, second) && Pending(pads, k, 0, second);
          var pad := PlugOne(now[k], open, from);
          now := now[k := pad];
          NoBusLater(mux.ports, log, mux.log, from);
        }
        PlugTurn(w, World(), old(World()), mux.ports, log, mux.log, from, pads, mid, now, k, second, open);
      }
    }

    method AnyInRound(pads: seq<PadChange>, second: bool) returns (wanted: bool)
      ensures wanted <==> exists k :: 0 <= k < |pads| && PlugsInRound(pads[k], second)
    {
      wanted := false;
      for k := 0 to |pads|
        invariant wanted <==> exists j :: 0 <= j < k && PlugsInRound(pads[j], second)
      {
        wanted := wanted || PlugsInRound(pads[k], second);
      }
    }

    /** Asks for a bus unless one is up. */
    method RaiseBus() returns (open: bool, reopened: bool)
      requires Coupled()
      modifies mux`open, mux`log
      ensures Coupled() && World() == old(World()) && old(mux.log) <= mux.log
      ensures (open <==> mux.BusUp()) && (old(mux.BusUp()) ==> open) && (reopened <==> open && !old(mux.BusUp()))
      ensures reopened ==> mux.Held() == {}
      ensures open || NoBusOpens(mux.ports, mux.log, |old(mux.log)|)
    {
      reopened := false;
      open := mux.IsBusOpen();
      if !open {
        reopened := mux.EnsureBusOpen();
        open := mux.IsBusOpen();
        if !open {
          AllRefused(mux.ports, old(mux.log), mux.open, mux.log);
        }
      }
    }

    method PlugPads(pads: seq<PadChange>, second: bool) returns (now: seq<PadChange>, reopened: bool)
      requires Coupled() && Accounted(World(), pads, 0, second, [])
      requires forall k: nat :: Pending(pads, k, 0, second) ==> !pads[k].plugged
      requires forall k :: 0 <= k < |pads| && PlugsInRound(pads[k], second) && pads[k].kind == Replug ==> mux.BusUp()
      modifies mux`open, mux`held, mux`log, mux.owners
      ensures Coupled() && Accounted(World(), now, 0, second, []) && old(mux.log) <= mux.log
      ensures PlugRound(pads, now, second)
      ensures reopened ==> mux.Held() <= use.Keys
      ensures reopened <==> mux.BusUp() && !old(mux.BusUp())
      // a change not plugged was refused by every backend that could, or no bus would open
      ensures AllTried(now, second, mux.ports, mux.log, |old(mux.log)|)
    {
      now, reopened := pads, false;
      var wanted := AnyInRound(pads, second);
      if !wanted {
        return;
      }
      var open;
      open, reopened := RaiseBus();
      now := PlugAll(pads, second, open, |old(mux.log)|);
    }

    // ---------- committing ----------

    /** Replaces a row in place, with the count that goes with it and what its serials are now in use for. */
    method PutRow(slot: nat, row: Row, ghost account: map<int, Use>)
      requires Coupled() && slot < |rows| && rows[slot].Some? && activePads == Total(rows) && account.Keys == use.Keys
      modifies this`rows, this`activePads, this`use
      ensures Coupled() && World() == old(World()).(rows := old(rows)[slot := Some(row)], use := account)
      ensures activePads == Total(rows)
    {
      var delta := row.activeCount - rows[slot].value.activeCount;
      TotalUpdate(rows, slot, Some(row));
      rows := rows[slot := Some(row)];
      activePads := activePads + delta;
      use := account;
    }

    /** A pad fitted to its descriptor, under a fresh plug generation. */
    method Fitted(d: Descriptor, serial: nat) returns (c: Controller)
      requires Coupled() && d.kind < TYPES && SerialPool.Known(serial)
      modifies this`nextGen
      ensures Coupled() && World() == old(World())
      ensures Fits(c, d) && c.serial == serial && ControllerOk(c) && c.gen == nextGen > old(nextGen)
    {
      nextGen := nextGen + 1;
      return Controller(true, serial, d.kind, Identity(d.kind), d.caps, SafeMode(d.mode), d.backend, nextGen);
    }

    method ReleaseReserved(serial: nat)
      requires Coupled()
      modifies this`use, pool.inUse
      ensures Coupled() && World() == ReleasedWorld(old(World()), serial)
    {
      pool.Release(serial);
      if serial != 0 {
        use := use - {serial};
      } else {
        assert 0 !in old(pool.InUse());
      }
    }

    /** Binds or swaps in the serial plugged for a pad. */
    method CommitPlugged(slot: nat, pad: PadChange, ghost second: bool, retired: seq<nat>) returns (more: seq<nat>)
      requires Coupled() && activePads == Total(rows) && HasPad(World(), slot, pad.desc.index)
      requires pad.kind == Replug || (pad.kind == ReplugInPlace && second) || (pad.kind == Add && (second || !pad.waits))
      requires pad.plugged && pad.desc.kind < TYPES && SerialPool.Known(pad.serial) && pad.serial in use
      requires pad.kind == Replug ==> SerialAt(World(), slot, pad.desc.index) in use
      modifies this`rows, this`activePads, this`use, this`nextGen
      ensures Coupled() && activePads == Total(rows)
      ensures CommitsTo(old(World()), World(), slot, pad, pad, second, retired, more)
      // under a generation no pad has had
      ensures rows[slot].value.controllers[pad.desc.index].gen == nextGen > old(nextGen)
    {
      var c := Fitted(pad.desc, pad.serial);
      ghost var w := World();
      var i, row := pad.desc.index, rows[slot].value;
      if pad.kind == Replug {
        PutRow(slot, RowWith(row, i, c, row.epoch + 1), SwappedWorld(w, slot, i, c).use);
        more := retired + [row.controllers[i].serial];
      } else {
        PutRow(slot, RowWith(row, i, c, row.epoch + 1), BoundWorld(w, slot, i, c).use);
        more := retired;
      }
    }

    /** Drops the serial sought for a pad, if any; a pad that was to be replugged stays. */
    method CommitUnplugged(slot: nat, pad: PadChange, ghost second: bool,
                           ghost retired: seq<nat>) returns (now: PadChange)
      requires Coupled() && activePads == Total(rows) && HasPad(World(), slot, pad.desc.index) && !pad.plugged
      requires pad.kind == Replug || (pad.kind == ReplugInPlace && second) || (pad.kind == Add && (second || !pad.waits))
      modifies this`rows, this`activePads, this`use, pool.inUse
      ensures Coupled() && activePads == Total(rows)
      ensures CommitsTo(old(World()), World(), slot, pad, now, second, retired, retired)
    {
      var i, row := pad.desc.index, rows[slot].value;
      if pad.kind == Replug {
        now := pad.(result := ReplugFail, appliedType := row.controllers[i].kind);
        PutRow(slot, RowWith(row, i, row.controllers[i], row.epoch + 1), use);
      } else {
        now := pad.(result := RefusedResult(pad));
      }
      ReleaseReserved(pad.serial);
    }

    method CommitPad(slot: nat, pad: PadChange, second: bool, retired: seq<nat>) returns (now: PadChange,
                     more: seq<nat>)
      requires Coupled() && activePads == Total(rows) && (pad.kind != Refuse ==> HasPad(World(), slot, pad.desc.index))
      requires pad.plugged ==> pad.desc.kind < TYPES && SerialPool.Known(pad.serial) && pad.serial in use
      requires pad.kind == Remove || pad.kind == Replug || (pad.kind == ReplugInPlace && !second) ==>
                 SerialAt(World(), slot, pad.desc.index) in use
      modifies this`rows, this`activePads, this`use, this`nextGen, pool.inUse
      ensures Coupled() && activePads == Total(rows)
      ensures CommitsTo(old(World()), World(), slot, pad, now, second, retired, more)
    {
      now, more := pad, retired;
      if pad.kind == Refuse || (pad.kind == Add && !second && pad.waits) {
        return;
      }
      var i := pad.desc.index;
      ghost var w := World();
      var row := rows[slot].value;
      if pad.kind == Update {
        PutRow(slot, RowWith(row, i, UpdatedPad(row.controllers[i], pad.desc), row.epoch), use);
      } else if pad.kind == Remove || (pad.kind == ReplugInPlace && !second) {
        more := retired + [row.controllers[i].serial];
        PutRow(slot, RowWith(row, i, Vacated(row.controllers[i]), row.epoch + 1), VacatedWorld(w, slot, i).use);
      } else if pad.plugged {
        more := CommitPlugged(slot, pad, second, retired);
      } else {
        now := CommitUnplugged(slot, pad, second, retired);
      }
    }

    /** One turn of a commit round. */
    method CommitNext(slot: nat, pads: seq<PadChange>, k: nat, second: bool, retired: seq<nat>, ghost was: Rows,
                      ghost first: seq<PadChange>)
        returns (now: seq<PadChange>, more: seq<nat>)
      requires Coupled() && Committing(World(), slot, was, first, pads, k, second, retired) && activePads == Total(rows)
      requires k < |first| && AllCommittable(was[slot].value.controllers, first, second)
      modifies this`rows, this`activePads, this`use, this`nextGen, pool.inUse
      ensures Coupled() && Committing(World(), slot, was, first, now, k + 1, second, more) && activePads == Total(rows)
    {
      ghost var w := World();
      if second && !pads[k].waits {
        SkipTurn(w, slot, was, first, pads, k, second, retired);
        return pads, retired;
      }
      StillCommittable(w, slot, was[slot].value, first, pads, k, second);
      NeedsHold(w, slot, pads, k, second, retired);
      var pad, m := CommitPad(slot, pads[k], second, retired);
      now, more := pads[k := pad], m;
      CommitTurn(w, World(), slot, was, first, pads, now, k, second, retired, more);
    }

    method ForgetQuarantine(reopened: bool, ghost pads: seq<PadChange>, ghost second: bool)
      requires Coupled() && Accounted(World(), pads, 0, second, []) && (reopened ==> mux.Held() <= use.Keys)
      modifies pool.quarantined
      ensures Coupled() && Accounted(World(), pads, 0, second, [])
      ensures pool.Quarantined() == if reopened then {} else old(pool.Quarantined())
    {
      if reopened {
        pool.ClearQuarantine();
        QuarantineCleared(old(World()), pads, second);
      }
    }

    method CommitPads(slot: nat, pads: seq<PadChange>, second: bool, reopened: bool) returns (now: seq<PadChange>,
                      retired: seq<nat>)
      requires Coupled() && Accounted(World(), pads, 0, second, []) && activePads == Total(rows)
      requires slot < SESSIONS && rows[slot].Some? && AllCommittable(rows[slot].value.controllers, pads, second)
      requires reopened ==> mux.Held() <= use.Keys
      modifies this`rows, this`activePads, this`use, this`nextGen, pool.inUse, pool.quarantined
      ensures Coupled() && Committing(World(), slot, old(rows), pads, now, |pads|, second, retired)
      ensures activePads == Total(rows) && pool.Quarantined() == if reopened then {} else old(pool.Quarantined())
    {
      ForgetQuarantine(reopened, pads, second);
      now, retired := pads, [];
      for k := 0 to |pads|
        invariant pool.Quarantined() == if reopened then {} else old(pool.Quarantined())
        invariant Coupled() && Committing(World(), slot, old(rows), pads, now, k, second, retired)
        invariant activePads == Total(rows)
      {
        now, retired := CommitNext(slot, now, k, second, retired, old(rows), pads);
      }
    }

    // ---------- retiring ----------

    /** Unplugs retired serials, which no reader can find any more. */
    method UnplugRetired(retired: seq<nat>) returns (unplugged: seq<bool>)
      requires Coupled()
      requires forall o, j :: 0 <= j < |retired| ==> !NamedAt(hot, o, retired[j])
      modifies mux`held, mux`unplugs, mux.owners
      ensures Coupled() && World() == old(World()).(held := mux.Held())
      ensures UnplugsOnly(old(mux.Held()), mux.Held(), retired, unplugged)
      // one not confirmed was asked for
      ensures forall j :: 0 <= j < |retired| && !unplugged[j] ==> Unconfirmed(mux.unplugs, |old(mux.unplugs)|, retired[j])
    {
      unplugged := [];
      for k := 0 to |retired|
        invariant Coupled() && UnplugsOnly(old(mux.Held()), mux.Held(), retired[..k], unplugged)
        invariant old(mux.unplugs) <= mux.unplugs
        invariant forall j :: 0 <= j < k && !unplugged[j] ==> Unconfirmed(mux.unplugs, |old(mux.unplugs)|, retired[j])
      {
        assert retired[..k + 1] == retired[..k] + [retired[k]];
        ghost var log := mux.unplugs;
        var ok := mux.UnplugDevice(retired[k]);
        unplugged := unplugged + [ok];
        UnconfirmedLater(log, mux.unplugs, |old(mux.unplugs)|, retired, unplugged, k);
      }
      assert retired[..|retired|] == retired;
    }

    /** A serial confirmed unplugged is free again; any other is quarantined. */
    method SettleRetired(retired: seq<nat>, unplugged: seq<bool>)
      requires Coupled() && |unplugged| == |retired| && forall j :: 0 <= j < |retired| ==> SerialPool.Known(retired[j])
      modifies this`use, this`settles, pool.inUse, pool.quarantined
      ensures Coupled() && World() == Settled(old(World()), retired, unplugged) && settles == old(settles) + 1
    {
      settles := settles + 1;
      for k := 0 to |retired|
        invariant Coupled() && settles == old(settles) + 1
        invariant Settled(World(), retired[k..], unplugged[k..]) == Settled(old(World()), retired, unplugged)
      {
        assert retired[k..][1..] == retired[k + 1..] && unplugged[k..][1..] == unplugged[k + 1..];
        ghost var w := World();
        if unplugged[k] {
          pool.Release(retired[k]);
        } else {
          pool.Quarantine(retired[k]);
        }
        use := use - {retired[k]};
        assert World() == SettledOne(w, retired[k], unplugged[k]);
      }
    }

    // ---------- the second search ----------

    /** A refit prefers the serial its pad just gave up. */
    method AllocateAgain(pad: PadChange, ghost k: nat) returns (serial: nat)
      requires Coupled()
      modifies this`use, this`lastTried, pool`scanStart, pool.inUse
      ensures Coupled()
      ensures if serial == 0 then World() == old(World())
              else && SerialPool.Known(serial) && serial !in old(use) && serial !in pool.Quarantined()
                   && World() == old(World()).(use := old(use)[serial := Planned(k)])
      ensures pad.kind == ReplugInPlace && SerialPool.Known(pad.retiring) && pad.retiring !in old(use) && pad.retiring !in pool.Quarantined() ==>
                serial == pad.retiring
      ensures serial == 0 ==> FoundAllTaken(lastTried, pad.desc.index) && lastTried[pad.desc.index].after == settles
      ensures forall i :: i in old(lastTried) && i != pad.desc.index ==>
        i in lastTried && lastTried[i] == old(lastTried[i])
    {
      if pad.kind == ReplugInPlace {
        var claimed := pool.Claim(pad.retiring);
        if claimed {
          use := use[pad.retiring := Planned(k)];
          return pad.retiring;
        }
      }
      serial := AllocateFor(k, pad.desc.index);
    }

    /** One waiting change's turn. */
    method SearchOne(pads: seq<PadChange>, k: nat, ghost first: seq<PadChange>) returns (now: seq<PadChange>)
      requires Coupled() && Accounted(World(), pads, 0, true, []) && TriedOk(pads, lastTried) && DistinctIndices(pads)
      requires k < |pads| && Waiter(pads[k]) && pads[k].serial == 0 && !pads[k].plugged && Searched(first, pads)
      modifies this`use, this`lastTried, pool`scanStart, pool.inUse
      ensures Coupled() && Accounted(World(), now, 0, true, []) && TriedOk(now, lastTried) && DistinctIndices(now)
      ensures Searched(first, now) && now == pads[k := pads[k].(serial := now[k].serial)]
      ensures now[k].serial == 0 ==> pads[k].desc.index in lastTried && lastTried[pads[k].desc.index].after == settles
      ensures forall i :: i in old(lastTried) && i != pads[k].desc.index ==> i in lastTried && lastTried[i] == old(lastTried[i])
    {
      ghost var w := World();
      var serial := AllocateAgain(pads[k], k);
      now := pads[k := pads[k].(serial := serial)];
      ReserveWaiting(w, World(), pads, k, serial);
      SearchTried(pads, old(lastTried), k, serial, lastTried);
    }

    /** One change's turn in the search of a kind. */
    method SearchTurn(kind: Kind, pads: seq<PadChange>, k: nat, ghost first: seq<PadChange>, ghost done: set<Kind>)
        returns (now: seq<PadChange>, searched: bool)
      requires Coupled() && Accounted(World(), pads, 0, true, []) && TriedOk(pads, lastTried) && DistinctIndices(pads)
      requires k < |pads| && Searched(first, pads) && (kind == Add || kind == ReplugInPlace)
      requires Waiter(pads[k]) && pads[k].kind == kind ==> pads[k].serial == 0 && !pads[k].plugged
      requires LateUpTo(pads, lastTried, settles, done, kind, k)
      modifies this`use, this`lastTried, pool`scanStart, pool.inUse
      ensures Coupled() && Accounted(World(), now, 0, true, []) && TriedOk(now, lastTried) && DistinctIndices(now)
      ensures Searched(first, now) && now == pads[k := pads[k].(serial := now[k].serial)]
      ensures searched <==> Waiter(pads[k]) && pads[k].kind == kind
      ensures !searched ==> World() == old(World()) && now == pads
      ensures LateUpTo(now, lastTried, settles, done, kind, k + 1)
    {
      searched := pads[k].kind == kind && pads[k].waits;
      if !searched {
        LateSkips(pads, lastTried, settles, done, kind, k);
        return pads, false;
      }
      now := SearchOne(pads, k, first);
      LateNext(pads, old(lastTried), lastTried, settles, done, kind, k, now[k].serial);
    }

    /** The waiting changes of one kind search in turn. */
    method SearchKind(kind: Kind, pads: seq<PadChange>, ghost first: seq<PadChange>, ghost done: set<Kind>)
        returns (now: seq<PadChange>, any: bool)
      requires Coupled() && Accounted(World(), pads, 0, true, []) && TriedOk(pads, lastTried) && DistinctIndices(pads)
      requires Searched(first, pads)
      requires forall k :: 0 <= k < |pads| && Waiter(pads[k]) && pads[k].kind == kind ==>
        pads[k].serial == 0 && !pads[k].plugged
      requires (kind == Add || kind == ReplugInPlace) && Late(pads, lastTried, settles, done)
      modifies this`use, this`lastTried, pool`scanStart, pool.inUse
      ensures Late(now, lastTried, settles, done + {kind})
      ensures Coupled() && Accounted(World(), now, 0, true, []) && TriedOk(now, lastTried) && DistinctIndices(now)
      ensures Searched(first, now)
      ensures forall k :: 0 <= k < |pads| && pads[k].kind != kind ==> now[k] == pads[k]
      ensures any <==> exists k :: 0 <= k < |pads| && Waiter(pads[k]) && pads[k].kind == kind
      ensures !any ==> World() == old(World()) && now == pads
    {
      now, any := pads, false;
      for k := 0 to |pads|
        invariant Coupled() && Accounted(World(), now, 0, true, []) && TriedOk(now, lastTried) && DistinctIndices(now)
        invariant Searched(first, now) && Sweep(pads, now, kind, k, any)
        invariant !any ==> World() == old(World())
        invariant LateUpTo(now, lastTried, settles, done, kind, k)
      {
        ghost var mid := now;
        var searched;
        now, searched := SearchTurn(kind, now, k, first, done);
        SweepNext(pads, mid, now, kind, k, any, searched);
        any := any || searched;
      }
      LateDone(now, lastTried, settles, done, kind);
    }

    /** Refits search first, then the additions that waited. */
    method AllocateWaiting(pads: seq<PadChange>) returns (now: seq<PadChange>, waiting: bool)
      requires Coupled() && Accounted(World(), pads, 0, true, []) && TriedOk(pads, lastTried) && DistinctIndices(pads)
      requires forall k :: 0 <= k < |pads| && Waiter(pads[k]) ==> pads[k].serial == 0 && !pads[k].plugged
      modifies this`use, this`lastTried, pool`scanStart, pool.inUse
      ensures Coupled() && Accounted(World(), now, 0, true, []) && TriedOk(now, lastTried) && Searched(pads, now)
      ensures waiting <==> exists k :: 0 <= k < |pads| && Waiter(pads[k])
      ensures !waiting ==> World() == old(World()) && now == pads
      // whoever is still without a serial has searched again
      ensures Late(now, lastTried, settles, {Add, ReplugInPlace})
    {
      var refits, adds;
      now, refits := SearchKind(ReplugInPlace, pads, pads, {});
      ghost var mid := now;
      assert forall k :: 0 <= k < |pads| ==> mid[k].kind == pads[k].kind && Waiter(mid[k]) == Waiter(pads[k]);
      now, adds := SearchKind(Add, now, pads, {ReplugInPlace});
      assert {ReplugInPlace} + {Add} == {Add, ReplugInPlace};
      waiting := refits || adds;
    }

    // ---------- publishing ----------

    /** Takes away this slot's owner entries that no longer hold. */
    method ClearOwners(slot: nat, cs: seq<Controller>)
      requires |padOwners| == SerialPool.COUNT + 1 && |cs| == CONTROLLERS && padOwners[0].None?
      requires forall s :: 0 <= s < |padOwners| && padOwners[s].Some? && padOwners[s].value.slot == slot ==>
        padOwners[s].value.index < CONTROLLERS
      modifies this`padOwners
      ensures |padOwners| == SerialPool.COUNT + 1
      ensures forall s: nat :: s < |padOwners| ==>
        padOwners[s] == if Stale(old(padOwners)[s], s, slot, cs) then None else old(padOwners)[s]
    {
      for serial := 1 to SerialPool.COUNT + 1
        invariant |padOwners| == SerialPool.COUNT + 1
        invariant forall s: nat :: s < |padOwners| ==>
          padOwners[s] == if s < serial && Stale(old(padOwners)[s], s, slot, cs) then None else old(padOwners)[s]
      {
        var owner := padOwners[serial];
        if owner.None? || owner.value.slot != slot {
          continue;
        }
        var c := cs[owner.value.index];
        if !c.active || c.serial != serial {
          padOwners := padOwners[serial := None];
        }
      }
    }

    /** Makes the owner table name this slot's active pads and no other of its own. */
    method PublishOwners(slot: nat, cs: seq<Controller>)
      requires |padOwners| == SerialPool.COUNT + 1 && |cs| == CONTROLLERS && padOwners[0].None? && DistinctSerials(cs)
      requires forall s :: 0 <= s < |padOwners| && padOwners[s].Some? && padOwners[s].value.slot == slot ==>
        padOwners[s].value.index < CONTROLLERS
      modifies this`padOwners
      ensures OwnersFor(old(padOwners), padOwners, slot, cs)
    {
      ClearOwners(slot, cs);
      ghost var cleared := padOwners;
      for i := 0 to CONTROLLERS
        invariant |padOwners| == SerialPool.COUNT + 1
        invariant forall j :: 0 <= j < i && cs[j].active ==> padOwners[cs[j].serial] == Some(Owner(slot, j))
        invariant forall s: nat :: s < |padOwners| && (forall j :: 0 <= j < CONTROLLERS && cs[j].active ==> cs[j].serial != s) ==>
          padOwners[s] == cleared[s]
      {
        if cs[i].active {
          padOwners := padOwners[cs[i].serial := Some(Owner(slot, i))];
        }
      }
    }

    /** Publishes a row's words; every serial they name is plugged. */
    method PublishRow(slot: nat, token: nat)
      requires Coupled() && RowsOk(rows) && BoundOk(World()) && slot < SESSIONS && rows[slot].Some?
      requires |hot| == |tokens| == SESSIONS && OwnersOk(padOwners, hot) && |hot[slot].pads| == CONTROLLERS
      requires forall k :: 0 <= k < SESSIONS && k != slot ==> SlotOk(hot[k], tokens[k], rows[k])
      requires |history| == SESSIONS
      modifies this`padOwners, this`hot, this`history
      ensures |hot| == SESSIONS && OwnersOk(padOwners, hot) && hot == old(hot)[slot := hot[slot]]
      ensures WordsOf(hot[slot], token, rows[slot].value)
      ensures history == old(history)[slot := old(history)[slot] + [hot[slot]]]
    {
      var row := rows[slot].value;
      SerialsDistinct(World(), slot);
      OwnersInRange(padOwners, hot, slot);
      NobodyElseNames(World(), hot, tokens, slot);
      PublishOwners(slot, row.controllers);
      var words := seq(CONTROLLERS, i requires 0 <= i < |row.controllers| => Words(row.controllers[i]));
      hot := hot[slot := HotSlot(token, words, row.epoch, row.mouse)];
      history := history[slot := history[slot] + [hot[slot]]];
      OwnersAccount(old(padOwners), old(hot), padOwners, hot, slot, row.controllers);
    }

    method ControllersPublished(slot: nat) returns (same: bool)
      requires slot < |rows| && rows[slot].Some? && slot < |hot|
      requires |rows[slot].value.controllers| == CONTROLLERS == |hot[slot].pads|
      ensures same <==> WordsOf(hot[slot], hot[slot].token, rows[slot].value)
    {
      var row := rows[slot].value;
      for i := 0 to CONTROLLERS
        invariant forall j :: 0 <= j < i ==> hot[slot].pads[j] == Words(row.controllers[j])
      {
        if hot[slot].pads[i] != Words(row.controllers[i]) {
          return false;
        }
      }
      return hot[slot].epoch == row.epoch && hot[slot].mouse == row.mouse;
    }

    // ---------- after the first publication ----------

    /** Unplugs and settles what the first round retired. */
    method SettleRound(pads: seq<PadChange>, retired: seq<nat>)
      requires Coupled() && Accounted(World(), pads, |pads|, false, retired) && Routed()
      modifies this`use, this`settles, pool.inUse, pool.quarantined, mux`held, mux`unplugs, mux.owners
      ensures Coupled() && Accounted(World(), pads, |pads|, false, []) && Routed() && settles == old(settles) + 1
    {
      ghost var w := World();
      RetiredUnnamed(w, hot, tokens, pads, |pads|, false, retired);
      var unplugged := UnplugRetired(retired);
      UnplugAccount(w, mux.Held(), pads, |pads|, false, retired, unplugged);
      SettleAccount(World(), pads, |pads|, false, retired, unplugged);
      SettleRetired(retired, unplugged);
    }

    /** Publishes a row's controllers unless its words say it all already. */
    method PublishControllers(slot: nat, ghost was: Rows)
      requires Coupled() && RowsOk(rows) && BoundOk(World()) && activePads == Total(rows) && slot < SESSIONS
      requires |was| == SESSIONS && was[slot].Some? && rows[slot].Some? && rows == was[slot := rows[slot]]
      requires Distinct(was)
      requires SameSession(was[slot].value, rows[slot].value)
      requires |hot| == |tokens| == SESSIONS && OwnersOk(padOwners, hot)
      requires forall k :: 0 <= k < SESSIONS ==> SlotOk(hot[k], tokens[k], was[k])
      requires HistoriesOk(history, hot, was) && EpochMoves(was[slot].value, rows[slot].value)
      modifies this`padOwners, this`hot, this`history
      ensures Routed() && hot == old(hot)[slot := hot[slot]]
    {
      DistinctStays(was, rows, slot);
      var same := ControllersPublished(slot);
      if same {
        HistoryKept(history, hot, was, rows, slot);
      } else {
        ghost var token := hot[slot].token;
        PublishRow(slot, hot[slot].token);
        HistoryNext(old(history), old(hot), hot, was, rows, slot, token);
      }
    }

    /** Commits and publishes the changes that waited. */
    method SecondCommit(slot: nat, pads: seq<PadChange>, reopened: bool) returns (now: seq<PadChange>)
      requires Coupled() && Accounted(World(), pads, 0, true, []) && Routed()
      requires slot < SESSIONS && rows[slot].Some? && AllCommittable(rows[slot].value.controllers, pads, true)
      requires reopened ==> mux.Held() <= use.Keys
      modifies this`rows, this`activePads, this`use, this`nextGen, this`padOwners, this`hot, this`history, pool.inUse
      modifies pool.quarantined
      ensures Valid() && |rows| == |old(rows)| && rows[slot].Some? && rows == old(rows)[slot := rows[slot]]
      ensures RoundOk(old(rows)[slot].value, rows[slot].value, pads, now, |pads|, true)
    {
      var none;
      now, none := CommitPads(slot, pads, true, reopened);
      NonePending(World(), now, true, none, [], 0, false);
      PublishControllers(slot, old(rows));
    }

    /** The first round is behind: what it was planned and plugged from, and the log it was tried by. */
    ghost predicate FirstDone(slot: nat, a: Row, first: seq<PadChange>, mid: seq<PadChange>, from: nat)
      reads this, mux
    {
      && slot < SESSIONS == |rows| && rows[slot].Some? && RowOk(a) && |rows[slot].value.controllers| == CONTROLLERS
      && Sound(a.controllers, Supported(), first) && Deferred(first) && TriedOk(mid, lastTried)
      && RoundOk(a, rows[slot].value, first, mid, |first|, false)
      && from <= |mux.log| && AllTried(first, false, mux.ports, mux.log, from)
    }

    /** Serials and plugs for the changes that waited. */
    method PlugWaiting(mid: seq<PadChange>) returns (again: seq<PadChange>, waiting: bool, reopened: bool)
      requires Coupled() && Accounted(World(), mid, 0, true, []) && TriedOk(mid, lastTried) && DistinctIndices(mid)
      requires WaitersIdle(mid)
      modifies this`use, this`lastTried, pool`scanStart, pool.inUse, mux`open, mux`held, mux`log, mux.owners
      ensures Coupled() && Accounted(World(), again, 0, true, []) && TriedOk(again, lastTried)
      ensures BetweenRounds(mid, again) && (reopened ==> mux.Held() <= use.Keys)
      ensures Late(again, lastTried, settles, {Add, ReplugInPlace})
      ensures AllTried(again, true, mux.ports, mux.log, |old(mux.log)|) && old(mux.log) <= mux.log
      ensures waiting <==> exists k :: 0 <= k < |mid| && Waiter(mid[k])
      ensures !waiting ==> World() == old(World()) && again == mid
    {
      again, waiting := AllocateWaiting(mid);
      reopened := false;
      if waiting {
        ghost var sought := again;
        again, reopened := PlugPads(again, true);
        LatePlugged(sought, again, lastTried, settles, {Add, ReplugInPlace});
      }
    }

    method SecondPlug(slot: nat, mid: seq<PadChange>, ghost a: Row, ghost first: seq<PadChange>, ghost from: nat, ghost settled: nat)
        returns (again: seq<PadChange>, waiting: bool, reopened: bool, ghost e: Effort)
      requires Coupled() && Accounted(World(), mid, 0, true, []) && Routed()
      requires FirstDone(slot, a, first, mid, from) && WaitersIdle(mid) && DistinctIndices(mid) && settles == settled + 1
      modifies this`use, this`lastTried, pool`scanStart, pool.inUse, mux`open, mux`held, mux`log, mux.owners
      ensures Coupled() && Accounted(World(), again, 0, true, []) && Routed() && (reopened ==> mux.Held() <= use.Keys)
      ensures Prepared(a, rows[slot].value, Supported(), first, mid, again, old(mux.log), e) && e == Effort(mux.ports, mux.log, from, lastTried, settled)
      ensures waiting <==> exists k :: 0 <= k < |mid| && Waiter(mid[k])
      ensures !waiting ==> again == mid
    {
      again, waiting, reopened := PlugWaiting(mid);
      e := Effort(mux.ports, mux.log, from, lastTried, settled);
    }

    /** The second commit and publication, if any change waited. */
    method SecondRound(slot: nat, ghost mid: seq<PadChange>, again: seq<PadChange>, waiting: bool, reopened: bool, ghost a: Row,
                       ghost first: seq<PadChange>, ghost log: seq<GamepadMux.Event>, ghost e: Effort)
        returns (now: seq<PadChange>)
      requires Coupled() && Accounted(World(), again, 0, true, []) && Routed() && slot < SESSIONS && rows[slot].Some?
      requires Prepared(a, rows[slot].value, Supported(), first, mid, again, log, e)
      requires (reopened ==> mux.Held() <= use.Keys) && (!waiting ==> again == mid)
      requires waiting <==> exists k :: 0 <= k < |mid| && Waiter(mid[k])
      modifies this`rows, this`activePads, this`use, this`nextGen, this`padOwners, this`hot, this`history, pool.inUse
      modifies pool.quarantined
      ensures Valid() && |rows| == |old(rows)| && rows[slot].Some? && rows == old(rows)[slot := rows[slot]]
      ensures Operated(a, rows[slot].value, Supported(), first, now, e)
    {
      if !waiting {
        NobodyWaited(a, rows[slot].value, Supported(), first, mid, log, e);
        NothingPlanned(World(), mid, [], 0, false);
        return again;
      }
      WaitersCommit(a, rows[slot].value, Supported(), first, mid, again);
      now := SecondCommit(slot, again, reopened);
      OperationDone(a, old(rows)[slot].value, rows[slot].value, Supported(), first, mid, again, now, log, e);
    }

    /** Unplugs and settles what the first round retired, then seeks serials for the changes that waited and plugs them. */
    method SettleAndPlug(slot: nat, mid: seq<PadChange>, retired: seq<nat>, ghost a: Row, ghost first: seq<PadChange>,
                         ghost from: nat) returns (again: seq<PadChange>, waiting: bool, reopened: bool, ghost e: Effort)
      requires Coupled() && Accounted(World(), mid, |mid|, false, retired) && Routed()
      requires FirstDone(slot, a, first, mid, from)
      modifies this`settles, this`use, this`lastTried, pool`scanStart, pool.inUse, pool.quarantined
      modifies mux`open, mux`held, mux`log, mux`unplugs, mux.owners
      ensures Coupled() && Accounted(World(), again, 0, true, []) && Routed() && (reopened ==> mux.Held() <= use.Keys)
      ensures Prepared(a, rows[slot].value, Supported(), first, mid, again, old(mux.log), e) && e == Effort(mux.ports, mux.log, from, lastTried, old(settles))
      ensures waiting <==> exists k :: 0 <= k < |mid| && Waiter(mid[k])
      ensures !waiting ==> again == mid
    {
      IdleAfterRound(a, rows[slot].value, Supported(), first, mid);
      SameIndices(a, rows[slot].value, first, mid);
      SettleRound(mid, retired);
      NonePending(World(), mid, false, [], mid, 0, true);
      again, waiting, reopened, e := SecondPlug(slot, mid, a, first, from, old(settles));
    }

    method SettlePadChange(slot: nat, mid: seq<PadChange>, retired: seq<nat>, ghost a: Row, ghost first: seq<PadChange>,
                           ghost from: nat) returns (now: seq<PadChange>, ghost e: Effort)
      requires Coupled() && Accounted(World(), mid, |mid|, false, retired) && Routed()
      requires FirstDone(slot, a, first, mid, from)
      modifies this`settles, mux`unplugs
      modifies this`rows, this`activePads, this`use, this`lastTried, this`nextGen, this`padOwners, this`hot, this`history
      modifies pool`scanStart, pool.inUse, pool.quarantined, mux`open, mux`held, mux`log, mux.owners
      ensures Valid() && |rows| == |old(rows)| && rows[slot].Some? && rows == old(rows)[slot := rows[slot]]
      ensures Operated(a, rows[slot].value, Supported(), first, now, e) && e == Effort(mux.ports, mux.log, from, lastTried, old(settles))
    {
      var again, waiting, reopened;
      again, waiting, reopened, e := SettleAndPlug(slot, mid, retired, a, first, from);
      now := SecondRound(slot, mid, again, waiting, reopened, a, first, old(mux.log), e);
    }

    // ---------- whole operations ----------

    method CountGlobalActive() returns (total: int)
      ensures total == Total(rows)
    {
      total := 0;
      for k := 0 to |rows|
        invariant total == Total(rows[..k])
      {
        assert rows[..k + 1][..k] == rows[..k];
        if rows[k].Some? {
          total := total + rows[k].value.activeCount;
        }
      }
      assert rows[..|rows|] == rows;
    }

    /** With no pad left the bus goes down, and takes every quarantined device with it. */
    method CloseBusIfIdle()
      requires Valid()
      modifies pool.quarantined, mux`open, mux`held
      ensures Valid() && (Total(rows) == 0 ==> mux.Held() == {} && !mux.BusUp())
      ensures old(mux.BusUp()) && Total(rows) == 0 ==> pool.Quarantined() == {}
      ensures !old(mux.BusUp()) || Total(rows) != 0 ==>
        mux.open == old(mux.open) && mux.Held() == old(mux.Held()) && pool.Quarantined() == old(pool.Quarantined())
    {
      var open := mux.IsBusOpen();
      var total := CountGlobalActive();
      if open && total == 0 {
        Closed(World());
        mux.CloseBus();
        pool.ClearQuarantine();
      }
    }

    lemma SwapsServed(slot: nat, pads: seq<PadChange>)
      requires Coupled() && BoundOk(World()) && slot < |rows| && rows[slot].Some? && |rows[slot].value.controllers| == CONTROLLERS
      requires Sound(rows[slot].value.controllers, Supported(), pads)
      ensures forall k :: 0 <= k < |pads| && pads[k].kind == Replug ==> mux.BusUp()
    {
      RowServed(slot);
      forall k | 0 <= k < |pads| && pads[k].kind == Replug ensures mux.BusUp() {
        SwapsNeedPads(rows[slot].value.controllers, Supported(), pads, k);
      }
    }

    /** Plugs and commits the first round. */
    method FirstRound(slot: nat, planned: seq<PadChange>) returns (mid: seq<PadChange>, retired: seq<nat>,
                      ghost first: seq<PadChange>)
      requires Coupled() && Accounted(World(), planned, 0, false, []) && activePads == Total(rows)
      requires TriedOk(planned, lastTried)
      requires slot < SESSIONS && rows[slot].Some? && |rows[slot].value.controllers| == CONTROLLERS
      requires Sound(rows[slot].value.controllers, Supported(), planned) && Unplugged(planned) && Deferred(planned)
      modifies this`rows, this`activePads, this`use, this`nextGen, pool.inUse, pool.quarantined, mux`open
      modifies mux`held, mux`log, mux.owners
      ensures Coupled() && Committing(World(), slot, old(rows), first, mid, |first|, false, retired)
      ensures activePads == Total(rows)
      ensures Sound(old(rows)[slot].value.controllers, Supported(), first) && SameChanges(planned, first)
      ensures TriedOk(mid, lastTried) && Deferred(first)
      ensures old(mux.log) <= mux.log && AllTried(first, false, mux.ports, mux.log, |old(mux.log)|)
    {
      SwapsServed(slot, planned);
      var plugged, reopened := PlugPads(planned, false);
      first := plugged;
      DeferredPlugged(planned, plugged);
      PlugSound(rows[slot].value.controllers, Supported(), planned, plugged);
      SoundCommits(rows[slot].value.controllers, Supported(), plugged);
      mid, retired := CommitPads(slot, plugged, false, reopened);
      FirstSame(old(rows)[slot].value, rows[slot].value, planned, plugged, mid, lastTried);
    }

    /** The first round up to its publication. */
    method FirstPublish(slot: nat, planned: seq<PadChange>) returns (mid: seq<PadChange>, retired: seq<nat>,
                        ghost first: seq<PadChange>)
      requires Coupled() && Accounted(World(), planned, 0, false, []) && Routed() && TriedOk(planned, lastTried)
      requires slot < SESSIONS && rows[slot].Some? && |rows[slot].value.controllers| == CONTROLLERS
      requires Sound(rows[slot].value.controllers, Supported(), planned) && Unplugged(planned) && Deferred(planned)
      modifies this`rows, this`activePads, this`use, this`nextGen, this`padOwners, this`hot, this`history
      modifies pool.inUse, pool.quarantined, mux`open, mux`held, mux`log, mux.owners
      ensures Coupled() && Committing(World(), slot, old(rows), first, mid, |first|, false, retired) && Routed()
      ensures Sound(old(rows)[slot].value.controllers, Supported(), first) && SameChanges(planned, first)
      ensures TriedOk(mid, lastTried) && Deferred(first)
      ensures old(mux.log) <= mux.log && AllTried(first, false, mux.ports, mux.log, |old(mux.log)|)
    {
      mid, retired, first := FirstRound(slot, planned);
      PublishControllers(slot, old(rows));
    }

    method ConvergePads(slot: nat, planned: seq<PadChange>) returns (now: seq<PadChange>, ghost e: Effort)
      requires Coupled() && Accounted(World(), planned, 0, false, []) && Routed() && TriedOk(planned, lastTried)
      requires slot < SESSIONS && rows[slot].Some? && RowOk(rows[slot].value)
      requires Sound(rows[slot].value.controllers, Supported(), planned) && Unplugged(planned) && Deferred(planned)
      modifies this`settles, mux`unplugs
      modifies this`rows, this`activePads, this`use, this`lastTried, this`nextGen, this`padOwners, this`hot, this`history
      modifies pool`scanStart, pool.inUse, pool.quarantined, mux`open, mux`held, mux`log, mux.owners
      ensures Valid() && |rows| == |old(rows)| && rows[slot].Some? && rows == old(rows)[slot := rows[slot]]
      ensures Operated(old(rows)[slot].value, rows[slot].value, Supported(), planned, now, e)
      ensures e == Effort(mux.ports, mux.log, |old(mux.log)|, lastTried, old(settles))
    {
      var mid, retired;
      ghost var first;
      mid, retired, first := FirstPublish(slot, planned);
      ghost var between := rows;
      now, e := SettlePadChange(slot, mid, retired, old(rows)[slot].value, first, |old(mux.log)|);
      TwiceUpdated(old(rows), between, rows, slot);
    }

    method FindByConnectionId(connectionId: string) returns (slot: Option<nat>)
      ensures match slot
              case Some(k) => k < |rows| && rows[k].Some? && rows[k].value.connectionId == connectionId
              case None => forall k :: 0 <= k < |rows| && rows[k].Some? ==> rows[k].value.connectionId != connectionId
    {
      for k := 0 to |rows|
        invariant forall j :: 0 <= j < k && rows[j].Some? ==> rows[j].value.connectionId != connectionId
      {
        if rows[k].Some? && rows[k].value.connectionId == connectionId {
          return Some(k);
        }
      }
      return None;
    }

    method FindByDeviceId(deviceId: string) returns (slot: Option<nat>)
      ensures match slot
              case Some(k) => k < |rows| && rows[k].Some? && rows[k].value.deviceId == deviceId
              case None => forall k :: 0 <= k < |rows| && rows[k].Some? ==> rows[k].value.deviceId != deviceId
    {
      for k := 0 to |rows|
        invariant forall j :: 0 <= j < k && rows[j].Some? ==> rows[j].value.deviceId != deviceId
      {
        if rows[k].Some? && rows[k].value.deviceId == deviceId {
          return Some(k);
        }
      }
      return None;
    }

    /** The one change for a single descriptor. */
    method PlanSingle(cs: seq<Controller>, d: Descriptor) returns (pads: seq<PadChange>)
      requires Coupled() && Accounted(World(), [], 0, false, []) && |cs| == CONTROLLERS && Served(cs)
      modifies this`use, this`lastTried, pool`scanStart, pool.inUse
      ensures Coupled() && Accounted(World(), pads, 0, false, []) && TriedOk(pads, lastTried)
      ensures |pads| == 1 && pads[0].desc == d && pads[0].kind != Remove && Sound(cs, Supported(), pads)
      ensures Unplugged(pads) && Deferred(pads)
    {
      var pad := PlanPad(cs, d, []);
      var planned := [pad];
      assert [] + [pad] == planned && TriedOk(planned, lastTried);
      pads := DeferUnservedAdds(planned);
      DeferredBy(planned, pads, lastTried);
      Relabel(World(), planned, pads, false, []);
      SingleSound(cs, Supported(), pad, pads);
    }

    method ApplyAt(slot: nat, d: Descriptor) returns (pad: PadChange, ghost e: Effort)
      requires Valid() && slot < SESSIONS && rows[slot].Some?
      modifies this`settles, mux`unplugs
      modifies this`rows, this`activePads, this`use, this`lastTried, this`nextGen, this`padOwners, this`hot, this`history
      modifies pool`scanStart, pool.inUse, pool.quarantined, mux`open, mux`held, mux`log, mux.owners
      ensures Valid() && |rows| == |old(rows)| && rows[slot].Some? && rows == old(rows)[slot := rows[slot]]
      ensures pad.desc == d && pad.kind != Remove
      ensures Converged(old(rows)[slot].value, rows[slot].value, [pad], Supported(), e.tried)
      ensures AllExplained(rows[slot].value, [pad], e) && e == Effort(mux.ports, mux.log, |old(mux.log)|, lastTried, old(settles))
      ensures Total(rows) == 0 ==> !mux.BusUp()
    {
      RowServed(slot);
      var planned := PlanSingle(rows[slot].value.controllers, d);
      var now;
      now, e := ConvergePads(slot, planned);
      pad := now[0];
      assert now == [pad];
      CloseBusIfIdle();
    }

    /**
     Applies one descriptor to a session.  Its result says what became of the pad; no
     other pad of the session, and no other session, is touched.
     */
    method ApplyController(connectionId: string, deviceId: string, d: Descriptor)
        returns (found: bool, pad: PadChange, epoch: nat, ghost slot: nat, ghost e: Effort)
      requires Valid()
      modifies this`settles, mux`unplugs
      modifies this`rows, this`activePads, this`use, this`lastTried, this`nextGen, this`padOwners, this`hot, this`history
      modifies pool`scanStart, pool.inUse, pool.quarantined, mux`open, mux`held, mux`log, mux.owners
      ensures Valid()
      ensures !found ==> rows == old(rows) && hot == old(hot)
      ensures !found ==> forall k :: 0 <= k < |rows| && rows[k].Some? ==>
        rows[k].value.connectionId != connectionId || rows[k].value.deviceId != deviceId
      ensures found ==>
        && slot < SESSIONS == |rows| == |old(rows)| && rows[slot].Some? && old(rows)[slot].Some? && rows == old(rows)[slot := rows[slot]]
        && old(rows)[slot].value.connectionId == connectionId && old(rows)[slot].value.deviceId == deviceId
        && epoch == rows[slot].value.epoch && pad.desc == d && pad.kind != Remove
        && Converged(old(rows)[slot].value, rows[slot].value, [pad], Supported(), e.tried)
        && AllExplained(rows[slot].value, [pad], e) && e == Effort(mux.ports, mux.log, |old(mux.log)|, lastTried, old(settles))
        && (Total(rows) == 0 ==> !mux.BusUp())
    {
      pad, epoch, slot, e := PlanRemoval(0), 0, 0, Effort(mux.ports, mux.log, 0, lastTried, 0);
      var at := FindByConnectionId(connectionId);
      if at.None? || rows[at.value].value.deviceId != deviceId {
        IdsUnique(rows, at, connectionId);
        return false, pad, epoch, slot, e;
      }
      pad, e := ApplyAt(at.value, d);
      return true, pad, rows[at.value].value.epoch, at.value, e;
    }

    method RemoveAt(slot: nat, index: nat)
      requires Valid() && slot < SESSIONS && rows[slot].Some?
      modifies this`settles, mux`unplugs
      modifies this`rows, this`activePads, this`use, this`lastTried, this`nextGen, this`padOwners, this`hot, this`history
      modifies pool`scanStart, pool.inUse, pool.quarantined, mux`open, mux`held, mux`log, mux.owners
      ensures Valid() && |rows| == |old(rows)| && rows[slot].Some? && rows == old(rows)[slot := rows[slot]]
      ensures Removed(old(rows)[slot].value, rows[slot].value, index)
      ensures Total(rows) == 0 ==> !mux.BusUp()
    {
      var cs := rows[slot].value.controllers;
      var planned := if index < CONTROLLERS && cs[index].active then [PlanRemoval(index)] else [];
      RemovalSound(World(), cs, Supported(), index, planned);
      var now;
      ghost var e;
      now, e := ConvergePads(slot, planned);
      RemovedOnly(old(rows)[slot].value, rows[slot].value, index, planned, now, Supported(), e.tried);
      CloseBusIfIdle();
    }

    method RemoveController(connectionId: string, deviceId: string, index: nat) returns (found: bool, epoch: nat,
                            ghost slot: nat)
      requires Valid()
      modifies this`settles, mux`unplugs
      modifies this`rows, this`activePads, this`use, this`lastTried, this`nextGen, this`padOwners, this`hot, this`history
      modifies pool`scanStart, pool.inUse, pool.quarantined, mux`open, mux`held, mux`log, mux.owners
      ensures Valid()
      ensures !found ==> rows == old(rows) && hot == old(hot)
      ensures !found ==> forall k :: 0 <= k < |rows| && rows[k].Some? ==>
        rows[k].value.connectionId != connectionId || rows[k].value.deviceId != deviceId
      ensures found ==>
        && slot < SESSIONS == |rows| == |old(rows)| && rows[slot].Some? && old(rows)[slot].Some? && rows == old(rows)[slot := rows[slot]]
        && old(rows)[slot].value.connectionId == connectionId && old(rows)[slot].value.deviceId == deviceId
        && epoch == rows[slot].value.epoch && Removed(old(rows)[slot].value, rows[slot].value, index)
        && (Total(rows) == 0 ==> !mux.BusUp())
    {
      epoch, slot := 0, 0;
      var at := FindByConnectionId(connectionId);
      if at.None? || rows[at.value].value.deviceId != deviceId {
        IdsUnique(rows, at, connectionId);
        return false, epoch, slot;
      }
      RemoveAt(at.value, index);
      return true, rows[at.value].value.epoch, at.value;
    }

    // ---------- declaring a whole session ----------

    /** A slot no session is published in; between operations no slot is being written. */
    method FindFree() returns (slot: Option<nat>)
      requires Routed()
      ensures match slot
              case Some(k) => k < SESSIONS && rows[k].None?
              case None => forall k :: 0 <= k < SESSIONS ==> rows[k].Some?
    {
      for k := 0 to SESSIONS
        invariant forall j :: 0 <= j < k ==> rows[j].Some?
      {
        assert SlotOk(hot[k], tokens[k], rows[k]);
        if tokens[k] == 0 {
          return Some(k);
        }
      }
      return None;
    }

    /** Plans a declared set and plugs its first round. */
    method UpsertPlug(cs: seq<Controller>, desired: seq<Descriptor>) returns (first: seq<PadChange>, reopened: bool,
                      ghost r: nat)
      requires Coupled() && Accounted(World(), [], 0, false, []) && |cs| == CONTROLLERS && DistinctDescriptors(desired)
      requires Served(cs)
      modifies this`use, this`lastTried, pool`scanStart, pool.inUse, mux`open, mux`held, mux`log, mux.owners
      ensures Coupled() && Accounted(World(), first, 0, false, []) && TriedOk(first, lastTried)
      ensures PlanFor(cs, Supported(), desired, first, r, |desired|) && Sound(cs, Supported(), first)
      ensures reopened ==> mux.Held() <= use.Keys
      ensures Deferred(first) && old(mux.log) <= mux.log && AllTried(first, false, mux.ports, mux.log, |old(mux.log)|)
    {
      var planned;
      planned, r := PlanSession(cs, desired);
      PlanSound(cs, Supported(), desired, planned, r);
      forall k | 0 <= k < |planned| && planned[k].kind == Replug ensures mux.BusUp() {
        SwapsNeedPads(cs, Supported(), planned, k);
      }
      first, reopened := PlugPads(planned, false);
      DeferredPlugged(planned, first);
      PlugSound(cs, Supported(), planned, first);
      PlugPlan(cs, Supported(), desired, planned, r, first);
    }

    /** Puts the row in place under its new token; its pads are as they were. */
    method Adopt(slot: nat, row: Row, ghost pads: seq<PadChange>)
      requires Coupled() && Accounted(World(), pads, 0, false, []) && activePads == Total(rows) && slot < SESSIONS
      requires Adopts(rows, slot, row)
      modifies this`rows
      ensures Coupled() && Accounted(World(), pads, 0, false, []) && activePads == Total(rows)
      ensures rows == old(rows)[slot := Some(row)] && Distinct(rows)
    {
      AdoptAccount(World(), slot, row, pads);
      TotalUpdate(rows, slot, Some(row));
      rows := rows[slot := Some(row)];
    }

    /** Adopts the row and commits its first round. */
    method UpsertRows(slot: nat, row: Row, first: seq<PadChange>, reopened: bool) returns (mid: seq<PadChange>,
                      retired: seq<nat>)
      requires Coupled() && Accounted(World(), first, 0, false, []) && activePads == Total(rows)
      requires slot < SESSIONS && Adopts(rows, slot, row) && Sound(row.controllers, Supported(), first)
      requires reopened ==> mux.Held() <= use.Keys
      modifies this`rows, this`activePads, this`use, this`nextGen, pool.inUse, pool.quarantined
      ensures Coupled() && activePads == Total(rows)
      ensures Committing(World(), slot, old(rows)[slot := Some(row)], first, mid, |first|, false, retired)
    {
      Adopt(slot, row, first);
      SoundCommits(row.controllers, Supported(), first);
      mid, retired := CommitPads(slot, first, false, reopened);
    }

    /** Publishes token and controllers together: the slot's words and its token are the row's. */
    method PublishSession(slot: nat, ghost was: Rows)
      requires Coupled() && RowsOk(rows) && BoundOk(World()) && activePads == Total(rows) && slot < SESSIONS
      requires rows[slot].Some?
      requires |was| == SESSIONS && rows == was[slot := rows[slot]] && Distinct(rows)
      requires |hot| == |tokens| == SESSIONS && OwnersOk(padOwners, hot)
      requires forall k :: 0 <= k < SESSIONS ==> SlotOk(hot[k], tokens[k], was[k])
      requires HistoriesOk(history, hot, was) && (was[slot].Some? ==> EpochMoves(was[slot].value, rows[slot].value))
      modifies this`padOwners, this`hot, this`history, this`tokens
      ensures Routed() && Coupled() && World() == old(World())
    {
      assert SlotOk(hot[slot], tokens[slot], was[slot]);
      var token := rows[slot].value.token;
      PublishRow(slot, token);
      HistoryNext(old(history), old(hot), hot, was, rows, slot, token);
      tokens := tokens[slot := token];
    }

    /** Publishes a row just adopted and committed to. */
    method PublishAdopted(slot: nat, ghost was: Rows, ghost row: Row, ghost first: seq<PadChange>, ghost mid: seq<PadChange>,
                          ghost retired: seq<nat>)
      requires |hot| == |tokens| == |was| == SESSIONS && OwnersOk(padOwners, hot) && slot < SESSIONS
      requires Coupled() && Committing(World(), slot, was[slot := Some(row)], first, mid, |first|, false, retired)
      requires activePads == Total(rows) && Adopts(was, slot, row) && TriedOk(first, lastTried)
      requires forall k :: 0 <= k < SESSIONS ==> SlotOk(hot[k], tokens[k], was[k])
      requires HistoriesOk(history, hot, was)
      modifies this`padOwners, this`hot, this`history, this`tokens
      ensures Routed() && Coupled() && World() == old(World()) && TriedOk(mid, lastTried)
    {
      AdoptedRound(was, rows, slot, row, first, mid, lastTried);
      PublishSession(slot, was);
    }

    /** The first round of a declared set, up to its publication. */
    method UpsertCommit(slot: nat, row: Row, first: seq<PadChange>, reopened: bool) returns (mid: seq<PadChange>,
                        retired: seq<nat>)
      requires Coupled() && Accounted(World(), first, 0, false, []) && Routed() && TriedOk(first, lastTried)
      requires slot < SESSIONS && Adopts(rows, slot, row) && Sound(row.controllers, Supported(), first)
      requires reopened ==> mux.Held() <= use.Keys
      modifies this`rows, this`activePads, this`use, this`nextGen, this`padOwners, this`hot, this`history, this`tokens
      modifies pool.inUse, pool.quarantined
      ensures Coupled() && Committing(World(), slot, old(rows)[slot := Some(row)], first, mid, |first|, false, retired)
      ensures Routed()
      ensures TriedOk(mid, lastTried)
    {
      mid, retired := UpsertRows(slot, row, first, reopened);
      PublishAdopted(slot, old(rows), row, first, mid, retired);
    }

    /** Plans a declared set and takes its first round up to its publication. */
    method UpsertFirst(slot: nat, row: Row, desired: seq<Descriptor>)
        returns (mid: seq<PadChange>, retired: seq<nat>, ghost first: seq<PadChange>, ghost r: nat)
      requires Valid() && slot < SESSIONS && Adopts(rows, slot, row) && DistinctDescriptors(desired)
      modifies this`rows, this`activePads, this`use, this`lastTried, this`nextGen, this`padOwners, this`hot, this`history
      modifies this`tokens, pool`scanStart, pool.inUse, pool.quarantined, mux`open, mux`held, mux`log, mux.owners
      ensures Coupled() && Committing(World(), slot, old(rows)[slot := Some(row)], first, mid, |first|, false, retired)
      ensures Routed() && TriedOk(mid, lastTried)
      ensures Deferred(first) && old(mux.log) <= mux.log && AllTried(first, false, mux.ports, mux.log, |old(mux.log)|)
      ensures PlanFor(row.controllers, Supported(), desired, first, r, |desired|) && Sound(row.controllers, Supported(), first)
    {
      var plugged, reopened;
      AdoptedServed(slot, row);
      plugged, reopened, r := UpsertPlug(row.controllers, desired);
      first := plugged;
      mid, retired := UpsertCommit(slot, row, plugged, reopened);
    }

    /** Both rounds of a declared set. */
    method UpsertRounds(slot: nat, row: Row, desired: seq<Descriptor>) returns (now: seq<PadChange>, ghost r: nat, ghost e: Effort)
      requires Valid() && slot < SESSIONS && Adopts(rows, slot, row) && DistinctDescriptors(desired)
      modifies this`settles, mux`unplugs
      modifies this`rows, this`activePads, this`use, this`lastTried, this`nextGen, this`padOwners, this`hot, this`history
      modifies this`tokens, pool`scanStart, pool.inUse, pool.quarantined, mux`open, mux`held, mux`log, mux.owners
      ensures Valid() && |rows| == |old(rows)| && rows[slot].Some? && rows == old(rows)[slot := rows[slot]]
      ensures Converged(row, rows[slot].value, now, Supported(), e.tried) && e == Effort(mux.ports, mux.log, |old(mux.log)|, lastTried, old(settles))
      ensures ShapedBy(row.controllers, desired, now, r)
      ensures AllExplained(rows[slot].value, now, e)
    {
      var mid, retired;
      ghost var first;
      mid, retired, first, r := UpsertFirst(slot, row, desired);
      ghost var between := rows;
      now, e := SettlePadChange(slot, mid, retired, row, first, |old(mux.log)|);
      TwiceUpdated(old(rows), between, rows, slot);
      PlanShape(row.controllers, Supported(), desired, first, r);
      ShapeStays(row.controllers, desired, first, r, now);
    }

    method Report(pads: seq<PadChange>) returns (out: seq<PadChange>)
      ensures out == Reported(pads)
    {
      out := [];
      for k := 0 to |pads|
        invariant out == Reported(pads[..k])
      {
        assert pads[..k + 1][..k] == pads[..k];
        if pads[k].kind != Remove {
          out := out + [pads[k]];
        }
      }
      assert pads[..|pads|] == pads;
    }

    /** Takes a declared set through both rounds and reports on it. */
    method DeclarePads(slot: nat, row: Row, descriptors: seq<Descriptor>) returns (results: seq<PadChange>, ghost e: Effort)
      requires Valid() && slot < SESSIONS && Adopts(rows, slot, row)
      modifies this`settles, mux`unplugs
      modifies this`rows, this`activePads, this`use, this`lastTried, this`nextGen, this`padOwners, this`hot, this`history
      modifies this`tokens, pool`scanStart, pool.inUse, pool.quarantined, mux`open, mux`held, mux`log, mux.owners
      ensures Valid() && |rows| == |old(rows)| && rows[slot].Some? && rows == old(rows)[slot := rows[slot]]
      ensures Declared(row, rows[slot].value, descriptors, results, Supported(), e.tried)
      ensures ResultsExplained(row, rows[slot].value, descriptors, results, e) && e == Effort(mux.ports, mux.log, |old(mux.log)|, lastTried, old(settles))
    {
      var desired := DedupDescriptors(descriptors);
      var now;
      ghost var r;
      now, r, e := UpsertRounds(slot, row, desired);
      results := Report(now);
      ResultsExplainedBy(row, rows[slot].value, descriptors, desired, now, r, results, e);
      DeclaredBy(row, rows[slot].value, descriptors, desired, now, r, results, Supported(), e.tried);
    }

    /** Declares a session's pads under a row ready to take the slot. */
    method UpsertAt(slot: nat, row: Row, descriptors: seq<Descriptor>) returns (results: seq<PadChange>, ghost e: Effort)
      requires Valid() && slot < SESSIONS && Adopts(rows, slot, row)
      modifies this`settles, mux`unplugs
      modifies this`rows, this`activePads, this`use, this`lastTried, this`nextGen, this`padOwners, this`hot, this`history
      modifies this`tokens, pool`scanStart, pool.inUse, pool.quarantined, mux`open, mux`held, mux`log, mux.owners
      ensures Valid() && |rows| == |old(rows)| && rows[slot].Some? && rows == old(rows)[slot := rows[slot]]
      ensures Declared(row, rows[slot].value, descriptors, results, Supported(), e.tried)
      ensures ResultsExplained(row, rows[slot].value, descriptors, results, e) && e == Effort(mux.ports, mux.log, |old(mux.log)|, lastTried, old(settles))
      ensures Total(rows) == 0 ==> !mux.BusUp()
    {
      results, e := DeclarePads(slot, row, descriptors);
      CloseBusIfIdle();
    }

    /** The slot for a device's session, and the row to take it: its own under a new token, or a new one. */
    method PlaceFor(deviceId: string, connectionId: string, token: nat, mouse: bool) returns (at: Option<nat>, row: Row)
      requires Valid() && token != 0
      requires forall k :: 0 <= k < |rows| && rows[k].Some? ==>
        rows[k].value.token != token && rows[k].value.connectionId != connectionId
      ensures at.None? <==> forall k :: 0 <= k < |rows| ==> rows[k].Some? && rows[k].value.deviceId != deviceId
      ensures at.Some? ==>
        && at.value < SESSIONS && Adopts(rows, at.value, row)
        && if rows[at.value].Some? then rows[at.value].value.deviceId == deviceId && row == rows[at.value].value.(token := token, mouse := mouse)
           else row == NewRow(connectionId, deviceId, token, mouse)
    {
      row := NewRow(connectionId, deviceId, token, mouse);
      at := FindByDeviceId(deviceId);
      if at.Some? {
        row := rows[at.value].value.(token := token, mouse := mouse);
        return;
      }
      at := FindFree();
      CountNone(row.controllers);
    }

    /**
     Declares a device's whole set of pads, in its own session or a new one.  It is refused
     exactly when the device is new and every slot is taken.  Token and connection id are
     drawn until no session has them.
     */
    method UpsertSession(deviceId: string, connectionId: string, token: nat, descriptors: seq<Descriptor>, mouse: bool)
        returns (ok: bool, results: seq<PadChange>, epoch: nat, ghost slot: nat, ghost row: Row, ghost e: Effort)
      requires Valid() && token != 0
      requires forall k :: 0 <= k < |rows| && rows[k].Some? ==>
        rows[k].value.token != token && rows[k].value.connectionId != connectionId
      modifies this`settles, mux`unplugs
      modifies this`rows, this`activePads, this`use, this`lastTried, this`nextGen, this`padOwners, this`hot, this`history
      modifies this`tokens, pool`scanStart, pool.inUse, pool.quarantined, mux`open, mux`held, mux`log, mux.owners
      ensures Valid()
      ensures !ok <==> forall k :: 0 <= k < |old(rows)| ==>
        old(rows)[k].Some? && old(rows)[k].value.deviceId != deviceId
      ensures !ok ==> rows == old(rows) && hot == old(hot) && tokens == old(tokens)
      ensures ok ==>
        && slot < SESSIONS == |rows| == |old(rows)| && rows[slot].Some? && rows == old(rows)[slot := rows[slot]]
        && (if old(rows)[slot].Some? then old(rows)[slot].value.deviceId == deviceId && row == old(rows)[slot].value.(token := token, mouse := mouse)
            else row == NewRow(connectionId, deviceId, token, mouse))
        && Declared(row, rows[slot].value, descriptors, results, Supported(), e.tried) && epoch == rows[slot].value.epoch
        && ResultsExplained(row, rows[slot].value, descriptors, results, e) && e == Effort(mux.ports, mux.log, |old(mux.log)|, lastTried, old(settles))
        && rows[slot].value.deviceId == deviceId && rows[slot].value.token == token && rows[slot].value.mouse == mouse
        && rows[slot].value.connectionId == (if old(rows)[slot].Some? then old(rows)[slot].value.connectionId else connectionId)
        && (Total(rows) == 0 ==> !mux.BusUp())
    {
      results, epoch, slot, row, e := [], 0, 0, NewRow(connectionId, deviceId, token, mouse), Effort(mux.ports, mux.log, 0, lastTried, 0);
      var at, adopted := PlaceFor(deviceId, connectionId, token, mouse);
      if at.None? {
        return false, results, epoch, slot, row, e;
      }
      slot, row := at.value, adopted;
      results, e := UpsertAt(at.value, adopted, descriptors);
      return true, results, rows[at.value].value.epoch, slot, row, e;
    }

    // ---------- ending sessions ----------

    /** One pad of a session that ends gives its serial up. */
    method RetirePad(slot: nat, i: nat, retired: seq<nat>) returns (more: seq<nat>)
      requires Coupled() && Accounted(World(), [], 0, false, retired) && activePads == Total(rows) && slot < SESSIONS
      requires rows[slot].Some? && i < CONTROLLERS
      modifies this`rows, this`activePads, this`use
      ensures Coupled() && Accounted(World(), [], 0, false, more) && activePads == Total(rows)
      ensures rows == old(rows)[slot := Some(WithoutPad(old(rows)[slot].value, i))]
    {
      var row := rows[slot].value;
      if row.controllers[i].active && row.controllers[i].serial != 0 {
        more := retired + [row.controllers[i].serial];
        RetireOne(World(), slot, i, retired);
        PutRow(slot, WithoutPad(row, i), World().use[row.controllers[i].serial := Retired]);
      } else {
        more := retired;
        assert ControllerOk(row.controllers[i]);
        NoPadThere(rows, slot, i);
      }
    }

    /** All of a session's pads give their serials up. */
    method RetirePads(slot: nat, retired: seq<nat>) returns (more: seq<nat>)
      requires Coupled() && Accounted(World(), [], 0, false, retired) && activePads == Total(rows) && slot < SESSIONS
      requires rows[slot].Some?
      modifies this`rows, this`activePads, this`use
      ensures Coupled() && Accounted(World(), [], 0, false, more) && activePads == Total(rows)
      ensures |rows| == |old(rows)| && rows[slot].Some? && rows == old(rows)[slot := rows[slot]]
      ensures SameSession(old(rows)[slot].value, rows[slot].value) && |rows[slot].value.controllers| == CONTROLLERS
      ensures forall i :: 0 <= i < CONTROLLERS ==> !rows[slot].value.controllers[i].active
    {
      more := retired;
      for i := 0 to CONTROLLERS
        invariant Coupled() && Accounted(World(), [], 0, false, more) && activePads == Total(rows)
        invariant |rows| == |old(rows)| && rows[slot].Some? && rows == old(rows)[slot := rows[slot]]
        invariant SameSession(old(rows)[slot].value, rows[slot].value) && |rows[slot].value.controllers| == CONTROLLERS
        invariant forall j :: 0 <= j < i ==> !rows[slot].value.controllers[j].active
      {
        more := RetirePad(slot, i, more);
      }
    }

    /** The slot names nothing and no token any more. */
    method ClearSlot(slot: nat, ghost was: Rows)
      requires Coupled() && RowsOk(rows) && BoundOk(World()) && slot < SESSIONS
      requires |was| == SESSIONS && rows[slot].Some? && rows == was[slot := rows[slot]]
      requires forall i :: 0 <= i < CONTROLLERS ==> !rows[slot].value.controllers[i].active
      requires |hot| == |tokens| == SESSIONS && OwnersOk(padOwners, hot)
      requires forall k :: 0 <= k < SESSIONS ==> SlotOk(hot[k], tokens[k], was[k])
      requires HistoriesOk(history, hot, was)
      modifies this`hot, this`history, this`tokens, this`padOwners
      ensures |hot| == |tokens| == SESSIONS && OwnersOk(padOwners, hot)
      ensures forall k :: 0 <= k < SESSIONS ==> SlotOk(hot[k], tokens[k], was[slot := None][k])
      ensures HistoriesOk(history, hot, was[slot := None])
    {
      assert SlotOk(hot[slot], tokens[slot], was[slot]);
      tokens := tokens[slot := 0];
      PublishRow(slot, 0);
      HistoryCleared(old(history), old(hot), hot, was, slot);
    }

    /** Drops the row of a slot already cleared. */
    method DropRow(slot: nat, ghost was: Rows, ghost retired: seq<nat>)
      requires Coupled() && Accounted(World(), [], 0, false, retired) && activePads == Total(rows) && slot < SESSIONS
      requires |was| == SESSIONS && rows[slot].Some? && rows == was[slot := rows[slot]] && Distinct(was[slot := None])
      requires forall i :: 0 <= i < CONTROLLERS ==> !rows[slot].value.controllers[i].active
      requires |hot| == |tokens| == SESSIONS && OwnersOk(padOwners, hot)
      requires forall k :: 0 <= k < SESSIONS ==> SlotOk(hot[k], tokens[k], was[slot := None][k])
      requires HistoriesOk(history, hot, was[slot := None])
      modifies this`rows
      ensures Coupled() && Accounted(World(), [], 0, false, retired) && Routed() && rows == was[slot := None]
    {
      Erased(World(), slot, retired);
      TotalUpdate(rows, slot, None);
      rows := rows[slot := None];
      assert rows == was[slot := None];
    }

    /** Clears the slot and drops the row; only its serials' unplugs remain to be done. */
    method EraseRow(slot: nat, ghost was: Rows, ghost retired: seq<nat>)
      requires Coupled() && Accounted(World(), [], 0, false, retired) && activePads == Total(rows) && slot < SESSIONS
      requires |was| == SESSIONS && was[slot].Some? && rows[slot].Some? && rows == was[slot := rows[slot]]
      requires Distinct(was)
      requires forall i :: 0 <= i < CONTROLLERS ==> !rows[slot].value.controllers[i].active
      requires |hot| == |tokens| == SESSIONS && OwnersOk(padOwners, hot)
      requires forall k :: 0 <= k < SESSIONS ==> SlotOk(hot[k], tokens[k], was[k])
      requires HistoriesOk(history, hot, was)
      modifies this`rows, this`hot, this`history, this`tokens, this`padOwners
      ensures Coupled() && Accounted(World(), [], 0, false, retired) && Routed() && rows == was[slot := None]
    {
      ClearSlot(slot, was);
      DistinctWithout(was, slot);
      DropRow(slot, was, retired);
    }

    method RetireConnection(slot: nat, retired: seq<nat>) returns (more: seq<nat>)
      requires Coupled() && Accounted(World(), [], 0, false, retired) && Routed() && slot < SESSIONS && rows[slot].Some?
      modifies this`rows, this`activePads, this`use, this`hot, this`history, this`tokens, this`padOwners
      ensures Coupled() && Accounted(World(), [], 0, false, more) && Routed() && rows == old(rows)[slot := None]
    {
      more := RetirePads(slot, retired);
      EraseRow(slot, old(rows), more);
    }

    /** Unplugs and settles what ended sessions retired, and closes an idle bus. */
    method FinishTeardown(retired: seq<nat>)
      requires Coupled() && Accounted(World(), [], 0, false, retired) && Routed()
      modifies this`settles, mux`unplugs
      modifies this`use, pool.inUse, pool.quarantined, mux`open, mux`held, mux.owners
      ensures Valid() && (Total(rows) == 0 ==> !mux.BusUp())
    {
      SettleRound([], retired);
      CloseBusIfIdle();
    }

    /** Ends the session in a slot if it is marked. */
    method RetireIf(marked: bool, k: nat, retired: seq<nat>) returns (more: seq<nat>, ended: bool)
      requires Coupled() && Accounted(World(), [], 0, false, retired) && Routed() && k < SESSIONS
      modifies this`rows, this`activePads, this`use, this`hot, this`history, this`tokens, this`padOwners
      ensures Coupled() && Accounted(World(), [], 0, false, more) && Routed()
      ensures ended == (old(rows)[k].Some? && marked)
      ensures if ended then rows == old(rows)[k := None] else rows == old(rows) && more == retired
    {
      more, ended := retired, rows[k].Some? && marked;
      if ended {
        more := RetireConnection(k, retired);
      }
    }

    /** Ends the sessions marked, whoever marks them. */
    method RetireMarked(gone: seq<bool>) returns (retired: seq<nat>, closed: nat)
      requires Valid() && |gone| == SESSIONS
      modifies this`rows, this`activePads, this`use, this`hot, this`history, this`tokens, this`padOwners
      ensures Coupled() && Accounted(World(), [], 0, false, retired) && Routed()
      ensures Without(old(rows), rows, gone, SESSIONS)
      ensures closed == MarkedCount(old(rows), gone, SESSIONS) && (closed == 0 ==> rows == old(rows) && retired == [])
    {
      retired, closed := [], 0;
      for k := 0 to SESSIONS
        invariant Coupled() && Accounted(World(), [], 0, false, retired) && Routed()
        invariant Without(old(rows), rows, gone, k)
        invariant closed == MarkedCount(old(rows), gone, k) && (closed == 0 ==> rows == old(rows) && retired == [])
      {
        ghost var mid := rows;
        var ended;
        retired, ended := RetireIf(gone[k], k, retired);
        closed := closed + if ended then 1 else 0;
        WithoutNext(old(rows), mid, rows, gone, k);
      }
    }

    /** The row is the session of that name, and the device's own if one is named. */
    ghost predicate IsSession(row: Option<Row>, connectionId: string, deviceId: string) {
      row.Some? && row.value.connectionId == connectionId && (deviceId == "" || row.value.deviceId == deviceId)
    }

    /** Ends one session; -1 when there is none of that name, or it is another device's. */
    method CloseSessionById(connectionId: string, deviceId: string) returns (removed: int, ghost slot: nat)
      requires Valid()
      modifies this`settles, mux`unplugs
      modifies this`rows, this`activePads, this`use, this`hot, this`history, this`tokens, this`padOwners
      modifies pool.inUse, pool.quarantined, mux`open, mux`held, mux.owners
      ensures Valid() && slot < SESSIONS == |old(rows)|
      ensures removed == -1 <==> forall k :: 0 <= k < |old(rows)| ==> !IsSession(old(rows)[k], connectionId, deviceId)
      ensures removed == -1 ==> rows == old(rows) && hot == old(hot)
      ensures removed != -1 ==>
        && IsSession(old(rows)[slot], connectionId, deviceId) && (Total(rows) == 0 ==> !mux.BusUp())
        && rows == old(rows)[slot := None] && removed == CountActive(old(rows)[slot].value.controllers)
    {
      var at := FindByConnectionId(connectionId);
      if at.None? || (deviceId != "" && rows[at.value].value.deviceId != deviceId) {
        IdsUnique(rows, at, connectionId);
        return -1, 0;
      }
      slot := at.value;
      removed := rows[at.value].value.activeCount;
      var retired := RetireConnection(at.value, []);
      FinishTeardown(retired);
    }

    /** Ends every session of a device. */
    method CloseSessionsForDevice(deviceId: string) returns (closed: nat)
      requires Valid()
      modifies this`settles, mux`unplugs
      modifies this`rows, this`activePads, this`use, this`hot, this`history, this`tokens, this`padOwners
      modifies pool.inUse, pool.quarantined, mux`open, mux`held, mux.owners
      ensures Valid() && |rows| == |old(rows)| && (closed > 0 && Total(rows) == 0 ==> !mux.BusUp())
      ensures forall k :: 0 <= k < |rows| ==>
        rows[k] == if old(rows)[k].Some? && old(rows)[k].value.deviceId == deviceId then None else old(rows)[k]
      ensures closed == if exists k :: 0 <= k < |old(rows)| && old(rows)[k].Some? && old(rows)[k].value.deviceId == deviceId
                        then 1 else 0
    {
      var gone := seq(SESSIONS, k requires 0 <= k < |rows| reads this => rows[k].Some? && rows[k].value.deviceId == deviceId);
      var retired;
      retired, closed := RetireMarked(gone);
      MarkedOnce(old(rows), gone, SESSIONS);
      if closed > 0 {
        FinishTeardown(retired);
      }
    }

    /** Ends every session whose silence has outlasted both the timeout and its grace; times are per slot. */
    method ReapTimedOut(now: int, lastPacket: seq<int>, graceUntil: seq<int>) returns (reaped: nat)
      requires Valid() && |lastPacket| == |graceUntil| == SESSIONS
      modifies this`settles, mux`unplugs
      modifies this`rows, this`activePads, this`use, this`hot, this`history, this`tokens, this`padOwners
      modifies pool.inUse, pool.quarantined, mux`open, mux`held, mux.owners
      ensures Valid() && |rows| == |old(rows)| && (reaped > 0 && Total(rows) == 0 ==> !mux.BusUp())
      ensures forall k :: 0 <= k < |rows| ==>
        rows[k] == if now - lastPacket[k] > TIMEOUT_SECONDS && now > graceUntil[k] then None else old(rows)[k]
      ensures reaped == |Ended(old(rows), rows)|
    {
      var expired := seq(SESSIONS, k requires 0 <= k < SESSIONS =>
        now - lastPacket[k] > TIMEOUT_SECONDS && now > graceUntil[k]);
      var retired;
      retired, reaped := RetireMarked(expired);
      EndedCount(old(rows), rows, expired);
      if reaped > 0 {
        FinishTeardown(retired);
      }
    }

    /** Forgets every serial, and takes down a bus that may still hold devices on them. */
    method ResetPool()
      requires Coupled() && Accounted(World(), [], 0, false, []) && Total(rows) == 0
      modifies pool.inUse, pool.quarantined, mux`open, mux`held
      ensures Coupled() && Accounted(World(), [], 0, false, [])
      ensures pool.InUse() == {} == pool.Quarantined() && mux.Held() == {} && !mux.BusUp()
    {
      Closed(World());
      pool.ClearInUse();
      pool.ClearQuarantine();
      var open := mux.IsBusOpen();
      var total := CountGlobalActive();
      if open && total == 0 {
        mux.CloseBus();
        pool.ClearQuarantine();
      }
    }

    /** Ends every session; the pool is clean and the bus down after it. */
    method CloseAllSessions()
      requires Valid()
      modifies this`settles, mux`unplugs
      modifies this`rows, this`activePads, this`use, this`hot, this`history, this`tokens, this`padOwners
      modifies pool.inUse, pool.quarantined, mux`open, mux`held, mux.owners
      ensures Valid() && pool.InUse() == {} == pool.Quarantined() && mux.Held() == {} && !mux.BusUp()
      ensures forall k :: 0 <= k < |rows| ==> rows[k].None?
    {
      var retired, closed := RetireMarked(seq(SESSIONS, _ => true));
      SettleRound([], retired);
      TotalEmpty(rows);
      ResetPool();
    }
  }
}
