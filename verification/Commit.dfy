/**
 Committing planned changes to a session's row, one change at a time and round by round,
 and settling the serials the first round retired.  Every effect is a function of the world
 before it, and keeps the account of the serials.
 */
module Commit {

  import opened Basics
  import opened Pads
  import SerialPool

  predicate HasPad(w: World, slot: nat, i: nat) {
    slot < |w.rows| && w.rows[slot].Some? && i < |w.rows[slot].value.controllers|
  }

  function SerialAt(w: World, slot: nat, i: nat): nat
    requires HasPad(w, slot, i)
  {
    w.rows[slot].value.controllers[i].serial
  }

  /** A row with one controller replaced. */
  function RowWith(row: Row, i: nat, c: Controller, epoch: nat): Row
    requires i < |row.controllers|
  {
    row.(controllers := row.controllers[i := c], epoch := epoch,
         activeCount := row.activeCount + (if c.active then 1 else 0) - (if row.controllers[i].active then 1 else 0))
  }

  lemma RowWithOk(w: World, o: Owner, c: Controller, epoch: nat)
    requires RowsOk(w.rows) && o.slot < SESSIONS && w.rows[o.slot].Some? && o.index < CONTROLLERS && ControllerOk(c)
    ensures Changed(w, o, RowWith(w.rows[o.slot].value, o.index, c, epoch))
  {
    CountUpdate(w.rows[o.slot].value.controllers, o.index, c);
  }

  /** Neither the set of active pads nor the device behind one ever changes under the same epoch. */
  ghost predicate EpochMoves(a: Row, b: Row) {
    && |a.controllers| == |b.controllers| && a.epoch <= b.epoch
    && (a.epoch == b.epoch ==>
          forall i :: 0 <= i < |a.controllers| ==>
            a.controllers[i].active == b.controllers[i].active && a.controllers[i].serial == b.controllers[i].serial)
  }

  /** What the commit may rely on of a change, given the pad it is for. */
  predicate Committable(cs: seq<Controller>, pad: PadChange, second: bool) {
    && (pad.serial != 0 ==> pad.waits == second) && (pad.plugged ==> pad.serial != 0)
    && (pad.kind != Refuse ==> pad.desc.index < |cs|)
    && (pad.kind in {Refuse, Update, Remove} ==> pad.serial == 0)
    && (second ==> pad.kind in {Add, ReplugInPlace})
    && (pad.kind in {Update, Add, Replug, ReplugInPlace} ==> pad.desc.kind < TYPES)
    && (pad.kind == Update ==> cs[pad.desc.index].active && Identity(pad.desc.kind) == cs[pad.desc.index].identity)
    && (pad.kind == Remove || pad.kind == Replug ==> cs[pad.desc.index].active)
    && (pad.kind == ReplugInPlace ==> cs[pad.desc.index].active == !second && (!second ==> pad.serial == 0))
    && (pad.kind == Add ==> !cs[pad.desc.index].active)
  }

  /** One change committed to a session's row. */
  ghost predicate StepOk(was: Rows, rows: Rows, slot: nat, pads: seq<PadChange>, now: seq<PadChange>, k: nat,
                         second: bool) {
    && slot < |was| && was[slot].Some? && |rows| == |was| && rows[slot].Some? && rows == was[slot := rows[slot]]
    && k < |pads| && |now| == |pads| && now == pads[k := now[k]]
    && var a, b, i := was[slot].value, rows[slot].value, pads[k].desc.index;
       && |a.controllers| == |b.controllers|
       && b == a.(controllers := b.controllers, epoch := b.epoch, activeCount := b.activeCount)
       && (forall j :: 0 <= j < |a.controllers| && j != i ==> b.controllers[j] == a.controllers[j])
       && Committed(PadAt(a.controllers, i), pads[k], PadAt(b.controllers, i), now[k], second)
       && EpochMoves(a, b)
  }

  lemma RowStep(was: Rows, slot: nat, pads: seq<PadChange>, now: seq<PadChange>, k: nat, second: bool, c: Controller,
                epoch: nat)
    requires slot < |was| && was[slot].Some? && k < |pads| && |now| == |pads| && now == pads[k := now[k]]
    requires pads[k].desc.index < |was[slot].value.controllers| && was[slot].value.epoch <= epoch
    requires var before := was[slot].value.controllers[pads[k].desc.index];
      Committed(before, pads[k], c, now[k], second) && (before.active != c.active || before.serial != c.serial ==> was[slot].value.epoch < epoch)
    ensures StepOk(was, was[slot := Some(RowWith(was[slot].value, pads[k].desc.index, c, epoch))], slot, pads, now, k, second)
  {
  }

  /** The rows with one controller replaced under the next epoch. */
  function NextRows(w: World, slot: nat, i: nat, c: Controller): Rows
    requires HasPad(w, slot, i)
  {
    w.rows[slot := Some(RowWith(w.rows[slot].value, i, c, w.rows[slot].value.epoch + 1))]
  }

  function VacatedWorld(w: World, slot: nat, i: nat): World
    requires HasPad(w, slot, i)
  {
    w.(rows := NextRows(w, slot, i, Vacated(w.rows[slot].value.controllers[i])), use := w.use[SerialAt(w, slot, i) := Retired])
  }

  function BoundWorld(w: World, slot: nat, i: nat, c: Controller): World
    requires HasPad(w, slot, i)
  {
    w.(rows := NextRows(w, slot, i, c), use := w.use[c.serial := Bound(Owner(slot, i))])
  }

  function SwappedWorld(w: World, slot: nat, i: nat, c: Controller): World
    requires HasPad(w, slot, i)
  {
    w.(rows := NextRows(w, slot, i, c), use := w.use[SerialAt(w, slot, i) := Retired][c.serial := Bound(Owner(slot, i))])
  }

  function UpdatedPad(c: Controller, d: Descriptor): Controller {
    c.(kind := d.kind, caps := d.caps, mode := SafeMode(d.mode), backend := d.backend)
  }

  function UpdatedWorld(w: World, slot: nat, i: nat, d: Descriptor): World
    requires HasPad(w, slot, i)
  {
    var row := w.rows[slot].value;
    w.(rows := w.rows[slot := Some(RowWith(row, i, UpdatedPad(row.controllers[i], d), row.epoch))])
  }

  /** A reserved serial back in the pool; 0 is none. */
  function ReleasedWorld(w: World, serial: nat): World {
    if serial == 0 then w else w.(use := w.use - {serial})
  }

  /** A pad kept as it is, under the next epoch. */
  function KeptWorld(w: World, slot: nat, i: nat): World
    requires HasPad(w, slot, i)
  {
    w.(rows := NextRows(w, slot, i, w.rows[slot].value.controllers[i]))
  }

  /** The result of an addition or a refit that got no device. */
  function RefusedResult(pad: PadChange): Result {
    if pad.kind == ReplugInPlace then PluginFail
    else if pad.serial == 0 then NoSlots
    else if pad.busDown then BackendUnavail
    else PluginFail
  }

  /** One change committed: the world, the change and the retired serials before and after. */
  ghost predicate CommitsTo(w: World, v: World, slot: nat, pad: PadChange, now: PadChange, second: bool,
                            retired: seq<nat>, more: seq<nat>) {
    var i := pad.desc.index;
    if pad.kind == Refuse || (pad.kind == Add && !second && pad.waits) then v == w && now == pad && more == retired
    else if !HasPad(w, slot, i) then false
    else if pad.kind == Update then v == UpdatedWorld(w, slot, i, pad.desc) && now == pad && more == retired
    else if pad.kind == Remove || (pad.kind == ReplugInPlace && !second) then
      v == VacatedWorld(w, slot, i) && now == pad && more == retired + [SerialAt(w, slot, i)]
    else if pad.plugged then
      && HasPad(v, slot, i) && now == pad
      && var c := v.rows[slot].value.controllers[i];
         && Fits(c, pad.desc) && c.serial == pad.serial && ControllerOk(c)
         && if pad.kind == Replug then v == SwappedWorld(w, slot, i, c) && more == retired + [SerialAt(w, slot, i)]
            else v == BoundWorld(w, slot, i, c) && more == retired
    else if pad.kind == Replug then
      && v == ReleasedWorld(KeptWorld(w, slot, i), pad.serial) && more == retired
      && now == pad.(result := ReplugFail, appliedType := w.rows[slot].value.controllers[i].kind)
    else
      v == ReleasedWorld(w, pad.serial) && more == retired && now == pad.(result := RefusedResult(pad))
  }

  lemma UpdateStep(w: World, slot: nat, pads: seq<PadChange>, k: nat, second: bool, retired: seq<nat>, c: Controller)
    requires Accounted(w, pads, k, second, retired) && slot < SESSIONS && w.rows[slot].Some? && k < |pads|
    requires pads[k].kind == Update
    requires Committable(w.rows[slot].value.controllers, pads[k], second)
    requires var d, b := pads[k].desc, w.rows[slot].value.controllers[pads[k].desc.index];
      c == b.(kind := d.kind, caps := d.caps, mode := SafeMode(d.mode), backend := d.backend)
    ensures var rows := w.rows[slot := Some(RowWith(w.rows[slot].value, pads[k].desc.index, c, w.rows[slot].value.epoch))];
      Accounted(w.(rows := rows), pads, k + 1, second, retired) && StepOk(w.rows, rows, slot, pads, pads, k, second)
  {
    var o, row := Owner(slot, pads[k].desc.index), w.rows[slot].value;
    RowWithOk(w, o, c, row.epoch);
    RowStep(w.rows, slot, pads, pads, k, second, c, row.epoch);
    CommitInPlace(w, pads, pads, k, second, retired, o, RowWith(row, o.index, c, row.epoch));
  }

  lemma VacateStep(w: World, slot: nat, pads: seq<PadChange>, k: nat, second: bool, retired: seq<nat>)
    requires Accounted(w, pads, k, second, retired) && slot < SESSIONS && w.rows[slot].Some? && k < |pads|
    requires pads[k].kind == Remove || (pads[k].kind == ReplugInPlace && !second)
    requires Committable(w.rows[slot].value.controllers, pads[k], second)
    ensures SerialAt(w, slot, pads[k].desc.index) in w.use
    ensures Accounted(VacatedWorld(w, slot, pads[k].desc.index), pads, k + 1, second, retired + [SerialAt(w, slot, pads[k].desc.index)])
    ensures StepOk(w.rows, VacatedWorld(w, slot, pads[k].desc.index).rows, slot, pads, pads, k, second)
  {
    var o, row := Owner(slot, pads[k].desc.index), w.rows[slot].value;
    var c := row.controllers[o.index];
    RowWithOk(w, o, Vacated(c), row.epoch + 1);
    RowStep(w.rows, slot, pads, pads, k, second, Vacated(c), row.epoch + 1);
    CommitVacate(w, pads, pads, k, second, retired, o, RowWith(row, o.index, Vacated(c), row.epoch + 1));
    assert ActiveAt(w.rows, o, c.serial);
  }

  lemma BindStep(w: World, slot: nat, pads: seq<PadChange>, k: nat, second: bool, retired: seq<nat>, c: Controller)
    requires Accounted(w, pads, k, second, retired) && slot < SESSIONS && w.rows[slot].Some? && k < |pads|
    requires pads[k].plugged
    requires pads[k].kind == Add || (pads[k].kind == ReplugInPlace && second)
    requires Committable(w.rows[slot].value.controllers, pads[k], second)
    requires Fits(c, pads[k].desc) && c.serial == pads[k].serial && ControllerOk(c)
    ensures c.serial in w.use && Accounted(BoundWorld(w, slot, pads[k].desc.index, c), pads, k + 1, second, retired)
    ensures StepOk(w.rows, BoundWorld(w, slot, pads[k].desc.index, c).rows, slot, pads, pads, k, second)
  {
    var o, row := Owner(slot, pads[k].desc.index), w.rows[slot].value;
    assert Pending(pads, k, k, second);
    RowWithOk(w, o, c, row.epoch + 1);
    RowStep(w.rows, slot, pads, pads, k, second, c, row.epoch + 1);
    CommitBind(w, pads, pads, k, second, retired, o, RowWith(row, o.index, c, row.epoch + 1));
  }

  lemma SwapStep(w: World, slot: nat, pads: seq<PadChange>, k: nat, second: bool, retired: seq<nat>, c: Controller)
    requires Accounted(w, pads, k, second, retired) && slot < SESSIONS && w.rows[slot].Some? && k < |pads|
    requires pads[k].plugged
    requires pads[k].kind == Replug && Committable(w.rows[slot].value.controllers, pads[k], second)
    requires Fits(c, pads[k].desc) && c.serial == pads[k].serial && ControllerOk(c)
    ensures c.serial in w.use && SerialAt(w, slot, pads[k].desc.index) in w.use
    ensures Accounted(SwappedWorld(w, slot, pads[k].desc.index, c), pads, k + 1, second, retired + [SerialAt(w, slot, pads[k].desc.index)])
    ensures StepOk(w.rows, SwappedWorld(w, slot, pads[k].desc.index, c).rows, slot, pads, pads, k, second)
  {
    var o, row := Owner(slot, pads[k].desc.index), w.rows[slot].value;
    assert Pending(pads, k, k, second);
    assert ActiveAt(w.rows, o, row.controllers[o.index].serial);
    RowWithOk(w, o, c, row.epoch + 1);
    RowStep(w.rows, slot, pads, pads, k, second, c, row.epoch + 1);
    CommitSwap(w, pads, pads, k, second, retired, o, RowWith(row, o.index, c, row.epoch + 1));
  }

  lemma ReleaseStep(w: World, slot: nat, pads: seq<PadChange>, now: seq<PadChange>, k: nat, second: bool,
                    retired: seq<nat>)
    requires Accounted(w, pads, k, second, retired) && k < |pads| && !pads[k].plugged && SameAfter(pads, now, k)
    requires pads[k].serial != 0 ==> pads[k].waits == second
    ensures Accounted(ReleasedWorld(w, pads[k].serial), now, k + 1, second, retired)
  {
    if pads[k].serial == 0 {
      CommitNothing(w, pads, now, k, second, retired);
    } else {
      assert Pending(pads, k, k, second);
      CommitDrop(w, pads, now, k, second, retired);
    }
  }

  lemma KeepStep(w: World, slot: nat, pads: seq<PadChange>, now: seq<PadChange>, k: nat, second: bool,
                 retired: seq<nat>)
    requires Accounted(w, pads, k, second, retired) && slot < SESSIONS && w.rows[slot].Some? && k < |pads|
    requires !pads[k].plugged
    requires pads[k].kind == Replug && Committable(w.rows[slot].value.controllers, pads[k], second) && |now| == |pads|
    requires now == pads[k := pads[k].(result := ReplugFail, appliedType := w.rows[slot].value.controllers[pads[k].desc.index].kind)]
    ensures var v := ReleasedWorld(KeptWorld(w, slot, pads[k].desc.index), pads[k].serial);
      Accounted(v, now, k + 1, second, retired) && StepOk(w.rows, v.rows, slot, pads, now, k, second)
  {
    var i, row := pads[k].desc.index, w.rows[slot].value;
    var c := row.controllers[i];
    RowWithOk(w, Owner(slot, i), c, row.epoch + 1);
    RowStep(w.rows, slot, pads, now, k, second, c, row.epoch + 1);
    TouchRow(w, pads, k, second, retired, Owner(slot, i), RowWith(row, i, c, row.epoch + 1));
    ReleaseStep(KeptWorld(w, slot, i), slot, pads, now, k, second, retired);
  }

  /** Every commit keeps the account and does to the pad what its change says. */
  lemma CommitAccount(w: World, v: World, slot: nat, pads: seq<PadChange>, now: seq<PadChange>, k: nat, second: bool,
                      retired: seq<nat>, more: seq<nat>)
    requires Accounted(w, pads, k, second, retired) && slot < SESSIONS && w.rows[slot].Some? && k < |pads|
    requires Committable(w.rows[slot].value.controllers, pads[k], second) && |now| == |pads| && now == pads[k := now[k]]
    requires CommitsTo(w, v, slot, pads[k], now[k], second, retired, more)
    ensures Accounted(v, now, k + 1, second, more) && StepOk(w.rows, v.rows, slot, pads, now, k, second)
  {
    var pad := pads[k];
    if pad.kind == Refuse || (pad.kind == Add && !second && pad.waits) {
      CommitNothing(w, pads, now, k, second, retired);
    } else if pad.kind == Update {
      UpdateStep(w, slot, pads, k, second, retired, UpdatedPad(w.rows[slot].value.controllers[pad.desc.index], pad.desc));
    } else if pad.kind == Remove || (pad.kind == ReplugInPlace && !second) {
      VacateStep(w, slot, pads, k, second, retired);
    } else if pad.plugged {
      var c := v.rows[slot].value.controllers[pad.desc.index];
      if pad.kind == Replug {
        SwapStep(w, slot, pads, k, second, retired, c);
      } else {
        BindStep(w, slot, pads, k, second, retired, c);
      }
    } else if pad.kind == Replug {
      KeepStep(w, slot, pads, now, k, second, retired);
    } else {
      ReleaseStep(w, slot, pads, now, k, second, retired);
    }
  }

  /** The second round leaves changes that did not wait alone. */
  predicate InRound(pad: PadChange, second: bool) {
    second ==> pad.waits
  }

  /** A session's row before and after the first k changes of a round. */
  ghost predicate RoundOk(a: Row, b: Row, pads: seq<PadChange>, now: seq<PadChange>, k: nat, second: bool) {
    && |now| == |pads| && k <= |pads| && |a.controllers| == |b.controllers|
    && b == a.(controllers := b.controllers, epoch := b.epoch, activeCount := b.activeCount)
    && EpochMoves(a, b)
    && (forall j :: 0 <= j < k && InRound(pads[j], second) ==>
          Committed(PadAt(a.controllers, pads[j].desc.index), pads[j], PadAt(b.controllers, pads[j].desc.index), now[j], second))
    && (forall j :: 0 <= j < |pads| && (j >= k || !InRound(pads[j], second)) ==>
          now[j] == pads[j] && PadAt(b.controllers, pads[j].desc.index) == PadAt(a.controllers, pads[j].desc.index))
    && (forall i: nat :: i < |a.controllers| && (forall j :: 0 <= j < |pads| ==> pads[j].desc.index != i) ==>
          b.controllers[i] == a.controllers[i])
  }

  lemma RoundNext(a: Row, was: Rows, rows: Rows, slot: nat, pads: seq<PadChange>, mid: seq<PadChange>,
                  now: seq<PadChange>, k: nat, second: bool)
    requires StepOk(was, rows, slot, mid, now, k, second)
    requires RoundOk(a, was[slot].value, pads, mid, k, second) && DistinctIndices(pads) && k < |pads|
    requires InRound(pads[k], second)
    ensures RoundOk(a, rows[slot].value, pads, now, k + 1, second)
  {
    var b, c := was[slot].value, rows[slot].value;
    forall j | 0 <= j < |pads| && j != k
      ensures now[j] == mid[j] && PadAt(c.controllers, pads[j].desc.index) == PadAt(b.controllers, pads[j].desc.index)
    {
    }
  }

  /** The state of a commit round after k changes; `was` are the rows it started from. */
  ghost predicate Committing(w: World, slot: nat, was: Rows, pads: seq<PadChange>, now: seq<PadChange>, k: nat,
                             second: bool, retired: seq<nat>) {
    && slot < |was| == |w.rows| && was[slot].Some? && w.rows[slot].Some? && w.rows == was[slot := w.rows[slot]]
    && Accounted(w, now, k, second, retired) && RoundOk(was[slot].value, w.rows[slot].value, pads, now, k, second)
    && (second ==> retired == [])
  }

  ghost predicate AllCommittable(cs: seq<Controller>, pads: seq<PadChange>, second: bool) {
    DistinctIndices(pads) && forall k :: 0 <= k < |pads| && InRound(pads[k], second) ==>
          Committable(cs, pads[k], second)
  }

  lemma CommitTurn(w: World, v: World, slot: nat, was: Rows, pads: seq<PadChange>, mid: seq<PadChange>,
                   now: seq<PadChange>, k: nat,
                   second: bool, retired: seq<nat>, more: seq<nat>)
    requires Committing(w, slot, was, pads, mid, k, second, retired)
    requires AllCommittable(was[slot].value.controllers, pads, second)
    requires k < |pads| && InRound(pads[k], second) && |now| == |mid| && now == mid[k := now[k]]
    requires CommitsTo(w, v, slot, mid[k], now[k], second, retired, more)
    ensures Committing(v, slot, was, pads, now, k + 1, second, more)
  {
    StillCommittable(w, slot, was[slot].value, pads, mid, k, second);
    CommitAccount(w, v, slot, mid, now, k, second, retired, more);
    RoundNext(was[slot].value, w.rows, v.rows, slot, pads, mid, now, k, second);
  }

  lemma SkipTurn(w: World, slot: nat, was: Rows, pads: seq<PadChange>, now: seq<PadChange>, k: nat, second: bool,
                 retired: seq<nat>)
    requires Committing(w, slot, was, pads, now, k, second, retired) && k < |pads| && !InRound(pads[k], second)
    ensures Committing(w, slot, was, pads, now, k + 1, second, retired)
  {
    CommitNothing(w, now, now, k, second, retired);
  }

  lemma StillCommittable(w: World, slot: nat, a: Row, pads: seq<PadChange>, now: seq<PadChange>, k: nat, second: bool)
    requires slot < |w.rows| && w.rows[slot].Some? && RoundOk(a, w.rows[slot].value, pads, now, k, second)
    requires k < |pads| && InRound(pads[k], second) && AllCommittable(a.controllers, pads, second)
    ensures now[k] == pads[k] && Committable(w.rows[slot].value.controllers, now[k], second)
  {
    assert PadAt(w.rows[slot].value.controllers, pads[k].desc.index) == PadAt(a.controllers, pads[k].desc.index);
  }

  /** Unplugs take at most the serials they are for, and those they confirm. */
  ghost predicate UnplugsOnly(was: set<nat>, held: set<nat>, retired: seq<nat>, unplugged: seq<bool>) {
    && |unplugged| == |retired| && held <= was
    && (forall s :: s in was && s !in retired ==> s in held)
    && (forall j :: 0 <= j < |retired| && unplugged[j] ==> retired[j] !in held)
  }

  lemma UnplugAccount(w: World, held: set<nat>, pads: seq<PadChange>, from: nat, second: bool, retired: seq<nat>,
                      unplugged: seq<bool>)
    requires Accounted(w, pads, from, second, retired) && UnplugsOnly(w.held, held, retired, unplugged)
    ensures Accounted(w.(held := held), pads, from, second, retired)
  {
    forall s | s in w.use && !w.use[s].Retired? ensures s in held <==> s in w.held {
      assert s !in retired;
    }
  }

  function SettledOne(w: World, serial: nat, unplugged: bool): World {
    w.(use := w.use - {serial}, quarantined := if unplugged then w.quarantined else w.quarantined + {serial})
  }

  function Settled(w: World, retired: seq<nat>, unplugged: seq<bool>): World
    requires |unplugged| == |retired|
    decreases retired
  {
    if retired == [] then w else Settled(SettledOne(w, retired[0], unplugged[0]), retired[1..], unplugged[1..])
  }

  lemma {:induction false} SettleAccount(w: World, pads: seq<PadChange>, from: nat, second: bool, retired: seq<nat>,
                                         unplugged: seq<bool>)
    requires Accounted(w, pads, from, second, retired) && |unplugged| == |retired|
    requires forall j :: 0 <= j < |retired| && unplugged[j] ==> retired[j] !in w.held
    ensures Accounted(Settled(w, retired, unplugged), pads, from, second, [])
    ensures Settled(w, retired, unplugged).rows == w.rows && Settled(w, retired, unplugged).held == w.held
    decreases retired
  {
    if retired != [] {
      SettleFirst(w, SettledOne(w, retired[0], unplugged[0]), pads, from, second, retired);
      SettleAccount(SettledOne(w, retired[0], unplugged[0]), pads, from, second, retired[1..], unplugged[1..]);
    }
  }

  lemma QuarantineCleared(w: World, pads: seq<PadChange>, second: bool)
    requires Accounted(w, pads, 0, second, []) && w.held <= w.use.Keys
    ensures Accounted(w.(quarantined := {}), pads, 0, second, [])
  {
  }

  /** The serials a commit touches are in use. */
  lemma NeedsHold(w: World, slot: nat, pads: seq<PadChange>, k: nat, second: bool, retired: seq<nat>)
    requires Accounted(w, pads, k, second, retired) && slot < SESSIONS && w.rows[slot].Some? && k < |pads|
    requires Committable(w.rows[slot].value.controllers, pads[k], second)
    ensures pads[k].kind != Refuse ==> HasPad(w, slot, pads[k].desc.index)
    ensures pads[k].plugged ==> SerialPool.Known(pads[k].serial) && pads[k].serial in w.use
    ensures pads[k].kind == Remove || pads[k].kind == Replug || (pads[k].kind == ReplugInPlace && !second) ==>
              SerialAt(w, slot, pads[k].desc.index) in w.use
  {
    if pads[k].plugged {
      assert Pending(pads, k, k, second);
    }
    if pads[k].kind == Remove || pads[k].kind == Replug || (pads[k].kind == ReplugInPlace && !second) {
      assert ActiveAt(w.rows, Owner(slot, pads[k].desc.index), SerialAt(w, slot, pads[k].desc.index));
    }
  }
}
