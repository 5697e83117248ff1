/**
 What the lock-free readers see of the sessions: each slot's words, and the table from a
 serial to the pad that owns it.
 */
module Publication {

  import opened Basics
  import opened Pads
  import opened Commit
  import SerialPool

  /** What the lock-free readers see of a pad; all zero when it is inactive. */
  datatype PadWords = PadWords(active: bool, serial: nat, caps: nat, kind: nat, mode: nat, gen: nat)

  const NO_WORDS := PadWords(false, 0, 0, 0, 0, 0)

  datatype HotSlot = HotSlot(token: nat, pads: seq<PadWords>, epoch: nat, mouse: bool)

  function Words(c: Controller): PadWords {
    if c.active then PadWords(true, c.serial, c.caps, c.kind, c.mode, c.gen) else NO_WORDS
  }

  /** A slot's published words are its row's; an empty slot names nothing. */
  ghost predicate SlotOk(slot: HotSlot, token: nat, row: Option<Row>) {
    && |slot.pads| == CONTROLLERS && slot.token == token
    && match row
       case Some(r) =>
         && |r.controllers| == CONTROLLERS
         && token == r.token && slot.epoch == r.epoch && slot.mouse == r.mouse
         && (forall i :: 0 <= i < CONTROLLERS ==> slot.pads[i] == Words(r.controllers[i]))
       case None => token == 0 && (forall i :: 0 <= i < CONTROLLERS ==> slot.pads[i] == NO_WORDS)
  }

  /** The published word at an owner names a serial. */
  predicate NamedAt(hot: seq<HotSlot>, o: Owner, serial: nat) {
    && o.slot < |hot| && o.index < |hot[o.slot].pads|
    && hot[o.slot].pads[o.index].active && hot[o.slot].pads[o.index].serial == serial
  }

  /** The owner table is the exact inverse of the published words. */
  ghost predicate OwnersOk(owners: seq<Option<Owner>>, hot: seq<HotSlot>) {
    && |owners| == SerialPool.COUNT + 1 && owners[0].None?
    && (forall s: nat :: s < |owners| && owners[s].Some? ==> NamedAt(hot, owners[s].value, s))
    && (forall o: Owner, s: nat :: NamedAt(hot, o, s) ==> s < |owners| && owners[s] == Some(o))
  }

  /** A slot publishes a row's controllers and session word. */
  ghost predicate WordsOf(slot: HotSlot, token: nat, row: Row) {
    && |slot.pads| == CONTROLLERS == |row.controllers| && slot.token == token && slot.epoch == row.epoch && slot.mouse == row.mouse
    && forall i :: 0 <= i < CONTROLLERS ==> slot.pads[i] == Words(row.controllers[i])
  }

  predicate Stale(owner: Option<Owner>, serial: nat, slot: nat, cs: seq<Controller>) {
    && owner.Some? && owner.value.slot == slot
    && (owner.value.index < |cs| ==> !cs[owner.value.index].active || cs[owner.value.index].serial != serial)
  }

  ghost predicate DistinctSerials(cs: seq<Controller>) {
    && (forall i :: 0 <= i < |cs| && cs[i].active ==> SerialPool.Known(cs[i].serial))
    && (forall i, j :: 0 <= i < j < |cs| && cs[i].active && cs[j].active ==> cs[i].serial != cs[j].serial)
  }

  /** The owner table after a slot publishes its controllers. */
  ghost predicate OwnersFor(was: seq<Option<Owner>>, now: seq<Option<Owner>>, slot: nat, cs: seq<Controller>) {
    && |now| == |was| == SerialPool.COUNT + 1
    && (forall i: nat :: i < |cs| && cs[i].active ==> cs[i].serial < |now| && now[cs[i].serial] == Some(Owner(slot, i)))
    && (forall s: nat :: s < |now| && (forall i :: 0 <= i < |cs| && cs[i].active ==> cs[i].serial != s) ==>
          now[s] == if was[s].Some? && was[s].value.slot == slot then None else was[s])
  }

  lemma RetiredUnnamed(w: World, hot: seq<HotSlot>, tokens: seq<nat>, pads: seq<PadChange>, from: nat, second: bool,
                       retired: seq<nat>)
    requires Accounted(w, pads, from, second, retired) && |hot| == |tokens| == SESSIONS
    requires forall k :: 0 <= k < SESSIONS ==> SlotOk(hot[k], tokens[k], w.rows[k])
    ensures forall o, j :: 0 <= j < |retired| ==> !NamedAt(hot, o, retired[j])
    ensures forall j :: 0 <= j < |retired| ==> SerialPool.Known(retired[j])
  {
    forall o, j | 0 <= j < |retired| ensures !NamedAt(hot, o, retired[j]) {
      assert NamedAt(hot, o, retired[j]) ==> ActiveAt(w.rows, o, retired[j]);
    }
  }

  lemma SerialsDistinct(w: World, slot: nat)
    requires BoundOk(w) && RowsOk(w.rows) && slot < SESSIONS && w.rows[slot].Some?
    ensures DistinctSerials(w.rows[slot].value.controllers)
  {
    var cs := w.rows[slot].value.controllers;
    forall i: nat, j: nat | i < j < |cs| && cs[i].active && cs[j].active ensures cs[i].serial != cs[j].serial {
      assert ActiveAt(w.rows, Owner(slot, i), cs[i].serial) && ActiveAt(w.rows, Owner(slot, j), cs[j].serial);
    }
  }

  lemma OwnersInRange(owners: seq<Option<Owner>>, hot: seq<HotSlot>, slot: nat)
    requires OwnersOk(owners, hot) && slot < |hot| && |hot[slot].pads| == CONTROLLERS
    ensures forall s :: 0 <= s < |owners| && owners[s].Some? && owners[s].value.slot == slot ==>
      owners[s].value.index < CONTROLLERS
  {
    forall s: nat | s < |owners| && owners[s].Some? && owners[s].value.slot == slot
      ensures owners[s].value.index < CONTROLLERS
    {
      assert NamedAt(hot, owners[s].value, s);
    }
  }

  /** No other slot publishes a serial this row's pads carry. */
  ghost predicate NobodyElse(hot: seq<HotSlot>, slot: nat, cs: seq<Controller>) {
    forall o: Owner, i: nat :: i < |cs| && cs[i].active && o.slot != slot ==> !NamedAt(hot, o, cs[i].serial)
  }

  lemma NobodyElseNames(w: World, hot: seq<HotSlot>, tokens: seq<nat>, slot: nat)
    requires BoundOk(w) && RowsOk(w.rows) && |hot| == |tokens| == SESSIONS && slot < SESSIONS && w.rows[slot].Some?
    requires forall k :: 0 <= k < SESSIONS && k != slot ==> SlotOk(hot[k], tokens[k], w.rows[k])
    ensures NobodyElse(hot, slot, w.rows[slot].value.controllers)
  {
    var cs := w.rows[slot].value.controllers;
    forall o: Owner, i: nat | i < |cs| && cs[i].active && o.slot != slot ensures !NamedAt(hot, o, cs[i].serial) {
      assert ActiveAt(w.rows, Owner(slot, i), cs[i].serial);
      assert NamedAt(hot, o, cs[i].serial) ==> ActiveAt(w.rows, o, cs[i].serial);
    }
  }

  lemma OwnersAccount(was: seq<Option<Owner>>, hot: seq<HotSlot>, owners: seq<Option<Owner>>, now: seq<HotSlot>,
                      slot: nat, cs: seq<Controller>)
    requires OwnersOk(was, hot) && OwnersFor(was, owners, slot, cs) && NobodyElse(hot, slot, cs) && DistinctSerials(cs)
    requires slot < |hot| == |now| && |cs| == CONTROLLERS && now == hot[slot := now[slot]]
    requires |now[slot].pads| == CONTROLLERS && forall i :: 0 <= i < CONTROLLERS ==> now[slot].pads[i] == Words(cs[i])
    ensures OwnersOk(owners, now)
  {
    forall o: Owner, s: nat | NamedAt(now, o, s) ensures s < |owners| && owners[s] == Some(o) {
      if o.slot == slot {
        assert cs[o.index].active && cs[o.index].serial == s;
      } else {
        assert NamedAt(hot, o, s);
      }
    }
    forall s: nat | s < |owners| && owners[s].Some? ensures NamedAt(now, owners[s].value, s) {
      if i: nat :| i < |cs| && cs[i].active && cs[i].serial == s {
        assert owners[s] == Some(Owner(slot, i));
      } else {
        assert NamedAt(hot, was[s].value, s);
      }
    }
  }

  // ---------- what heartbeats are answered with ----------

  /** A heartbeat's answer: the slot's epoch, and which of its pads are active. */
  datatype Ack = Ack(epoch: nat, active: seq<bool>)

  function AckOf(slot: HotSlot): Ack {
    Ack(slot.epoch, seq(|slot.pads|, i requires 0 <= i < |slot.pads| => slot.pads[i].active))
  }

  function RowAck(row: Row): Ack {
    Ack(row.epoch, seq(|row.controllers|, i requires 0 <= i < |row.controllers| => row.controllers[i].active))
  }

  predicate AcksInOrder(a: Ack, b: Ack) {
    a.epoch <= b.epoch && (a.epoch == b.epoch ==> a == b)
  }

  /** The publications of a slot since it was last cleared: those of its last session. */
  function SinceCleared(h: seq<HotSlot>): seq<HotSlot> {
    if h == [] || h[|h| - 1].token == 0 then [] else SinceCleared(h[..|h| - 1]) + [h[|h| - 1]]
  }

  ghost predicate Ordered(h: seq<HotSlot>) {
    forall j, k :: 0 <= j < k < |h| ==> AcksInOrder(AckOf(h[j]), AckOf(h[k]))
  }

  /** In every session a slot has had, the epoch never fell and stood for one set of active pads. */
  ghost predicate AllOrdered(h: seq<HotSlot>) {
    forall n :: 0 <= n <= |h| ==> Ordered(SinceCleared(h[..n]))
  }

  /** All publications of a slot, up to the one that shows its row. */
  ghost predicate HistoryOk(h: seq<HotSlot>, slot: HotSlot, row: Option<Row>) {
    && AllOrdered(h) && (forall n :: 0 <= n < |h| ==> |h[n].pads| == CONTROLLERS)
    && match row
       case Some(r) =>
         && h != [] && h[|h| - 1] == slot
         && forall k :: 0 <= k < |SinceCleared(h)| ==> AcksInOrder(AckOf(SinceCleared(h)[k]), RowAck(r))
       case None => SinceCleared(h) == []
  }

  ghost predicate HistoriesOk(history: seq<seq<HotSlot>>, hot: seq<HotSlot>, rows: Rows) {
    |history| == |hot| == |rows| && forall k :: 0 <= k < |rows| ==> HistoryOk(history[k], hot[k], rows[k])
  }

  lemma {:induction false} SinceClearedNext(h: seq<HotSlot>, w: HotSlot)
    ensures SinceCleared(h + [w]) == if w.token == 0 then [] else SinceCleared(h) + [w]
  {
    assert (h + [w])[..|h|] == h;
  }

  lemma {:induction false} AllOrderedNext(h: seq<HotSlot>, w: HotSlot)
    requires AllOrdered(h) && Ordered(SinceCleared(h + [w]))
    ensures AllOrdered(h + [w])
  {
    var now := h + [w];
    forall n | 0 <= n <= |now| ensures Ordered(SinceCleared(now[..n])) {
      assert now[..n] == if n <= |h| then h[..n] else now;
    }
  }

  /** Publications with no clearing between them are of one session. */
  lemma {:induction false} OneSession(h: seq<HotSlot>, j: nat, n: nat)
    requires j < n <= |h| && forall m :: j <= m < n ==> h[m].token != 0
    ensures var c := SinceCleared(h[..n]); |c| >= n - j && c[|c| - (n - j)] == h[j]
  {
    assert h[..n] == h[..n - 1] + [h[n - 1]];
    SinceClearedNext(h[..n - 1], h[n - 1]);
    if j < n - 1 {
      OneSession(h, j, n - 1);
    }
  }

  lemma SessionAcksInOrder(h: seq<HotSlot>, j: nat, k: nat)
    requires AllOrdered(h) && j <= k < |h| && forall m :: j <= m <= k ==> h[m].token != 0
    ensures AcksInOrder(AckOf(h[j]), AckOf(h[k]))
  {
    OneSession(h, j, k + 1);
    OneSession(h, k, k + 1);
    assert Ordered(SinceCleared(h[..k + 1]));
  }

  /** The row's own answer moves in order when its epoch moves. */
  lemma RowAcksInOrder(a: Row, b: Row)
    requires EpochMoves(a, b)
    ensures AcksInOrder(RowAck(a), RowAck(b))
  {
  }

  lemma WordsAck(slot: HotSlot, token: nat, row: Row)
    requires WordsOf(slot, token, row)
    ensures AckOf(slot) == RowAck(row)
  {
  }

  /** A row that moved on, with its words already published, keeps its history. */
  lemma HistoryKept(history: seq<seq<HotSlot>>, hot: seq<HotSlot>, was: Rows, rows: Rows, slot: nat)
    requires HistoriesOk(history, hot, was) && slot < |was| == |rows| && rows == was[slot := rows[slot]]
    requires was[slot].Some? && rows[slot].Some? && EpochMoves(was[slot].value, rows[slot].value)
    ensures HistoriesOk(history, hot, rows)
  {
    RowAcksInOrder(was[slot].value, rows[slot].value);
    assert HistoryOk(history[slot], hot[slot], was[slot]);
    assert HistoryOk(history[slot], hot[slot], rows[slot]);
  }

  lemma OrderedNext(h: seq<HotSlot>, w: HotSlot)
    requires Ordered(h) && forall k :: 0 <= k < |h| ==> AcksInOrder(AckOf(h[k]), AckOf(w))
    ensures Ordered(h + [w])
  {
  }

  lemma {:induction false} PublishedInOrder(h: seq<HotSlot>, hot: HotSlot, now: HotSlot, was: Option<Row>, row: Row, token: nat)
    requires HistoryOk(h, hot, was) && (was.Some? ==> EpochMoves(was.value, row)) && WordsOf(now, token, row)
    ensures HistoryOk(h + [now], now, Some(row))
  {
    WordsAck(now, token, row);
    if was.Some? {
      RowAcksInOrder(was.value, row);
    }
    SinceClearedNext(h, now);
    assert Ordered(SinceCleared(h)) by {
      assert h[..|h|] == h;
    }
    OrderedNext(SinceCleared(h), now);
    AllOrderedNext(h, now);
    assert (h + [now])[|h|] == now;
  }

  /** Publishing a row adds to its history, in order. */
  lemma HistoryNext(history: seq<seq<HotSlot>>, hot: seq<HotSlot>, now: seq<HotSlot>, was: Rows, rows: Rows, slot: nat,
                    token: nat)
    requires HistoriesOk(history, hot, was) && slot < |was| == |rows| == |now| && rows == was[slot := rows[slot]]
    requires rows[slot].Some? && (was[slot].Some? ==> EpochMoves(was[slot].value, rows[slot].value))
    requires now == hot[slot := now[slot]] && WordsOf(now[slot], token, rows[slot].value)
    ensures HistoriesOk(history[slot := history[slot] + [now[slot]]], now, rows)
  {
    PublishedInOrder(history[slot], hot[slot], now[slot], was[slot], rows[slot].value, token);
  }

  /** Clearing a slot ends its session. */
  lemma HistoryCleared(history: seq<seq<HotSlot>>, hot: seq<HotSlot>, now: seq<HotSlot>, was: Rows, slot: nat)
    requires HistoriesOk(history, hot, was) && slot < |was| == |now| && now == hot[slot := now[slot]]
    requires now[slot].token == 0 && |now[slot].pads| == CONTROLLERS
    ensures HistoriesOk(history[slot := history[slot] + [now[slot]]], now, was[slot := None])
  {
    SinceClearedNext(history[slot], now[slot]);
    AllOrderedNext(history[slot], now[slot]);
  }

  /** Before the first session the tables name nothing. */
  lemma FreshTables(rows: Rows, tokens: seq<nat>, hot: seq<HotSlot>, owners: seq<Option<Owner>>, history: seq<seq<HotSlot>>)
    requires |rows| == |tokens| == |hot| == |history| == SESSIONS && |owners| == SerialPool.COUNT + 1
    requires forall k :: 0 <= k < SESSIONS ==>
      rows[k] == None && tokens[k] == 0 && history[k] == [] && hot[k] == HotSlot(0, seq(CONTROLLERS, _ => NO_WORDS), 0, false)
    requires forall s :: 0 <= s < |owners| ==> owners[s] == None
    ensures forall k :: 0 <= k < SESSIONS ==> SlotOk(hot[k], tokens[k], rows[k])
    ensures OwnersOk(owners, hot) && HistoriesOk(history, hot, rows)
  {
    forall k | 0 <= k < SESSIONS ensures HistoryOk(history[k], hot[k], rows[k]) {
      assert forall n :: 0 <= n <= 0 ==> history[k][..n] == [];
    }
  }
}
