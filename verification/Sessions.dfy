/** Session rows coming and going: adopting a row into a slot, and retiring one from it. */
module Sessions {

  import opened Basics
  import opened Pads
  import opened Commit

  /** Sessions differ in token, device and connection id. */
  ghost predicate Distinct(rows: Rows) {
    && (forall a :: 0 <= a < |rows| && rows[a].Some? ==> rows[a].value.token != 0)
    && (forall a, b :: 0 <= a < b < |rows| && rows[a].Some? && rows[b].Some? ==>
          && rows[a].value.token != rows[b].value.token
          && rows[a].value.deviceId != rows[b].value.deviceId
          && rows[a].value.connectionId != rows[b].value.connectionId)
  }

  predicate SameSession(a: Row, b: Row) {
    a.token == b.token && a.deviceId == b.deviceId && a.connectionId == b.connectionId
  }

  lemma DistinctStays(was: Rows, rows: Rows, slot: nat)
    requires Distinct(was) && slot < |was| == |rows| && rows == was[slot := rows[slot]] && was[slot].Some?
    requires rows[slot].Some?
    requires SameSession(was[slot].value, rows[slot].value)
    ensures Distinct(rows)
  {
  }

  lemma DistinctWithout(was: Rows, slot: nat)
    requires Distinct(was) && slot < |was|
    ensures Distinct(was[slot := None])
  {
  }

  /** A session that goes on under a new token goes on with its epoch. */
  lemma AdoptedMoves(rows: Rows, slot: nat, row: Row, b: Row)
    requires Adopts(rows, slot, row) && EpochMoves(row, b)
    ensures rows[slot].Some? ==> EpochMoves(rows[slot].value, b)
  {
  }

  lemma TwiceUpdated(was: Rows, between: Rows, rows: Rows, slot: nat)
    requires slot < |was| == |between| == |rows| && between == was[slot := between[slot]]
    requires rows == between[slot := rows[slot]]
    ensures rows == was[slot := rows[slot]]
  {
  }

  lemma IdsUnique(rows: Rows, at: Option<nat>, connectionId: string)
    requires Distinct(rows)
    requires match at
             case Some(k) => k < |rows| && rows[k].Some? && rows[k].value.connectionId == connectionId
             case None => forall k :: 0 <= k < |rows| && rows[k].Some? ==> rows[k].value.connectionId != connectionId
    ensures forall k :: 0 <= k < |rows| && rows[k].Some? && rows[k].value.connectionId == connectionId ==> at == Some(k)
  {
  }

  function NewRow(connectionId: string, deviceId: string, token: nat, mouse: bool): Row {
    Row(connectionId, deviceId, token, seq(CONTROLLERS, _ => NO_PAD), 0, 0, mouse)
  }

  /** A row may take a slot: its session's own, with the same pads, or an empty one, with none. */
  ghost predicate Adopts(rows: Rows, slot: nat, row: Row) {
    && slot < |rows| && RowOk(row) && Distinct(rows[slot := Some(row)])
    && match rows[slot]
       case Some(was) => row.controllers == was.controllers && row.activeCount == was.activeCount && row.epoch == was.epoch
       case None => row.activeCount == 0 && forall i :: 0 <= i < |row.controllers| ==> !row.controllers[i].active
  }

  lemma AdoptAccount(w: World, slot: nat, row: Row, pads: seq<PadChange>)
    requires Accounted(w, pads, 0, false, []) && slot < SESSIONS && Adopts(w.rows, slot, row)
    ensures Accounted(w.(rows := w.rows[slot := Some(row)]), pads, 0, false, [])
  {
    var v := w.(rows := w.rows[slot := Some(row)]);
    forall o, s ensures ActiveAt(v.rows, o, s) == ActiveAt(w.rows, o, s) {
    }
  }

  function WithoutPad(row: Row, i: nat): Row
    requires i < |row.controllers|
  {
    RowWith(row, i, if row.controllers[i].active then Vacated(row.controllers[i]) else row.controllers[i], row.epoch)
  }

  lemma NoPadThere(rows: Rows, slot: nat, i: nat)
    requires slot < |rows| && rows[slot].Some? && i < |rows[slot].value.controllers|
    requires !rows[slot].value.controllers[i].active
    ensures rows == rows[slot := Some(WithoutPad(rows[slot].value, i))]
  {
    var row := rows[slot].value;
    assert row.controllers[i := row.controllers[i]] == row.controllers;
  }

  lemma RetireOne(w: World, slot: nat, i: nat, retired: seq<nat>)
    requires Accounted(w, [], 0, false, retired) && slot < SESSIONS && w.rows[slot].Some? && i < CONTROLLERS
    requires w.rows[slot].value.controllers[i].active
    ensures SerialAt(w, slot, i) in w.use
    ensures Accounted(w.(rows := w.rows[slot := Some(WithoutPad(w.rows[slot].value, i))], use := w.use[SerialAt(w, slot, i) := Retired]),
                      [], 0, false, retired + [SerialAt(w, slot, i)])
  {
    var o, row := Owner(slot, i), w.rows[slot].value;
    var serial := SerialAt(w, slot, i);
    var gone := WithoutPad(row, i);
    assert ActiveAt(w.rows, o, serial);
    RowWithOk(w, o, Vacated(row.controllers[i]), row.epoch);
    var v := w.(rows := w.rows[slot := Some(gone)], use := w.use[serial := Retired]);
    assert SerialsOk(v) && RowsOk(v.rows);
    assert BoundOk(v) by {
      OwnedOnce(w, o, serial);
      BoundNext(w, v, o, gone);
    }
    assert RetiredOk(v, retired + [serial]) by {
      RetiredNext(w, v, retired, serial);
    }
  }

  lemma Erased(w: World, slot: nat, retired: seq<nat>)
    requires Accounted(w, [], 0, false, retired) && slot < SESSIONS && w.rows[slot].Some?
    requires forall i :: 0 <= i < CONTROLLERS ==> !w.rows[slot].value.controllers[i].active
    ensures Accounted(w.(rows := w.rows[slot := None]), [], 0, false, retired) && w.rows[slot].value.activeCount == 0
  {
    CountNone(w.rows[slot].value.controllers);
    var v := w.(rows := w.rows[slot := None]);
    forall o, s ensures ActiveAt(v.rows, o, s) == ActiveAt(w.rows, o, s) {
    }
  }

  /** The rows without the sessions marked among the first k slots. */
  ghost predicate Without(was: Rows, rows: Rows, gone: seq<bool>, k: nat) {
    && |was| == |rows| == |gone| && k <= |gone|
    && forall j :: 0 <= j < |was| ==> rows[j] == if j < k && gone[j] then None else was[j]
  }

  lemma WithoutNext(was: Rows, mid: Rows, rows: Rows, gone: seq<bool>, k: nat)
    requires Without(was, mid, gone, k) && k < |gone| && rows == if mid[k].Some? && gone[k] then mid[k := None] else mid
    ensures Without(was, rows, gone, k + 1)
  {
  }

  /** How many of the first k slots hold a session that is marked. */
  function MarkedCount(rows: Rows, gone: seq<bool>, k: nat): nat
    requires k <= |rows| && k <= |gone|
  {
    if k == 0 then 0 else MarkedCount(rows, gone, k - 1) + if rows[k - 1].Some? && gone[k - 1] then 1 else 0
  }

  ghost function Marked(rows: Rows, gone: seq<bool>, k: nat): set<nat>
    requires k <= |rows| && k <= |gone|
  {
    set j: nat | j < k && rows[j].Some? && gone[j]
  }

  lemma MarkedNext(rows: Rows, gone: seq<bool>, k: nat)
    requires k < |rows| && k < |gone|
    ensures Marked(rows, gone, k + 1) == Marked(rows, gone, k) + if rows[k].Some? && gone[k] then {k} else {}
  {
  }

  lemma {:induction false} MarkedSize(rows: Rows, gone: seq<bool>, k: nat)
    requires k <= |rows| && k <= |gone|
    ensures MarkedCount(rows, gone, k) == |Marked(rows, gone, k)|
  {
    if k > 0 {
      MarkedSize(rows, gone, k - 1);
      MarkedNext(rows, gone, k - 1);
    }
  }

  /** The slots whose session is gone. */
  ghost function Ended(was: Rows, rows: Rows): set<nat>
    requires |rows| == |was|
  {
    set j: nat | j < |was| && was[j].Some? && rows[j].None?
  }

  lemma EndedCount(was: Rows, rows: Rows, gone: seq<bool>)
    requires Without(was, rows, gone, |gone|)
    ensures MarkedCount(was, gone, |gone|) == |Ended(was, rows)|
  {
    MarkedSize(was, gone, |gone|);
    assert Ended(was, rows) == Marked(was, gone, |gone|);
  }

  /** Marks that fall on one session at most are counted as one or none. */
  lemma {:induction false} MarkedOnce(rows: Rows, gone: seq<bool>, k: nat)
    requires k <= |rows| && k <= |gone|
    requires forall i, j :: 0 <= i < j < |rows| && rows[i].Some? && rows[j].Some? && j < |gone| ==> !gone[i] || !gone[j]
    ensures MarkedCount(rows, gone, k) == if exists j :: 0 <= j < k && rows[j].Some? && gone[j] then 1 else 0
  {
    if k > 0 {
      MarkedOnce(rows, gone, k - 1);
      if rows[k - 1].Some? && gone[k - 1] {
        assert forall j :: 0 <= j < k - 1 && rows[j].Some? ==> !gone[j];
      }
    }
  }

  lemma {:induction false} TotalEmpty(rows: Rows)
    requires forall k :: 0 <= k < |rows| ==> rows[k] == None
    ensures Total(rows) == 0
  {
    if rows != [] {
      TotalEmpty(rows[..|rows| - 1]);
    }
  }
}
