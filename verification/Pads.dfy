/**
 The session rows, the planned pad changes, and how the serials in use are accounted for
 between them.  All of it is plain values; the service that changes them in place is in
 SessionService.
 */
module Pads {

  import opened Basics
  import SerialPool

  const CONTROLLERS := 16
  const SESSIONS := 32
  const TYPES := 4
  const XBOX := 0
  const MODE_OFF := 2
  const MODES := 3

  datatype Controller = Controller(
    active: bool, serial: nat, kind: nat, identity: nat, caps: nat, mode: nat, backend: string, gen: nat)

  const NO_PAD := Controller(false, 0, XBOX, 0, 0, MODE_OFF, "", 0)

  function Identity(kind: nat): nat {
    if kind < TYPES then kind else 0
  }

  function SafeMode(mode: nat): (safe: nat)
    ensures safe < MODES && (mode < MODES ==> safe == mode)
  {
    if mode < MODES then mode else MODE_OFF
  }

  datatype Descriptor = Descriptor(index: nat, kind: nat, caps: nat, mode: nat, backend: string)

  datatype Row = Row(
    connectionId: string, deviceId: string, token: nat, controllers: seq<Controller>,
    epoch: nat, activeCount: int, mouse: bool)

  type Rows = seq<Option<Row>>

  /** A session's slot in the hot table and a controller's index within the session. */
  datatype Owner = Owner(slot: nat, index: nat)

  predicate ActiveAt(rows: Rows, o: Owner, serial: int) {
    && o.slot < |rows| && rows[o.slot].Some? && o.index < |rows[o.slot].value.controllers|
    && rows[o.slot].value.controllers[o.index].active && rows[o.slot].value.controllers[o.index].serial == serial
  }

  function CountActive(cs: seq<Controller>): nat {
    if cs == [] then 0 else CountActive(cs[..|cs| - 1]) + if cs[|cs| - 1].active then 1 else 0
  }

  predicate ControllerOk(c: Controller) {
    if c.active then SerialPool.Known(c.serial) && c.identity == Identity(c.kind) && c.kind < TYPES && c.mode < MODES
    else c.serial == 0
  }

  ghost predicate RowOk(row: Row) {
    && |row.controllers| == CONTROLLERS && row.activeCount == CountActive(row.controllers)
    && forall i :: 0 <= i < CONTROLLERS ==> ControllerOk(row.controllers[i])
  }

  function Total(rows: Rows): int {
    if rows == [] then 0
    else Total(rows[..|rows| - 1]) + if rows[|rows| - 1].Some? then rows[|rows| - 1].value.activeCount else 0
  }

  lemma {:induction false} CountUpdate(cs: seq<Controller>, i: nat, c: Controller)
    requires i < |cs|
    ensures CountActive(cs[i := c]) ==
            CountActive(cs) + (if c.active then 1 else 0) - (if cs[i].active then 1 else 0)
  {
    if i < |cs| - 1 {
      assert cs[i := c][..|cs| - 1] == cs[..|cs| - 1][i := c];
      CountUpdate(cs[..|cs| - 1], i, c);
    } else {
      assert cs[i := c][..|cs| - 1] == cs[..|cs| - 1];
    }
  }

  lemma {:induction false} TotalUpdate(rows: Rows, i: nat, row: Option<Row>)
    requires i < |rows|
    ensures Total(rows[i := row]) == Total(rows) + (if row.Some? then row.value.activeCount else 0)
                                     - (if rows[i].Some? then rows[i].value.activeCount else 0)
  {
    if i < |rows| - 1 {
      assert rows[i := row][..|rows| - 1] == rows[..|rows| - 1][i := row];
      TotalUpdate(rows[..|rows| - 1], i, row);
    } else {
      assert rows[i := row][..|rows| - 1] == rows[..|rows| - 1];
    }
  }

  lemma {:induction false} CountZero(cs: seq<Controller>, i: nat)
    requires CountActive(cs) == 0 && i < |cs|
    ensures !cs[i].active
  {
    if i < |cs| - 1 {
      CountZero(cs[..|cs| - 1], i);
    }
  }

  lemma {:induction false} CountNone(cs: seq<Controller>)
    requires forall i :: 0 <= i < |cs| ==> !cs[i].active
    ensures CountActive(cs) == 0
  {
    if cs != [] {
      CountNone(cs[..|cs| - 1]);
    }
  }

  lemma {:induction false} TotalZero(rows: Rows, slot: nat)
    requires forall k :: 0 <= k < |rows| && rows[k].Some? ==> rows[k].value.activeCount >= 0
    requires Total(rows) == 0 && slot < |rows| && rows[slot].Some?
    ensures rows[slot].value.activeCount == 0
  {
    TotalNonNegative(rows[..|rows| - 1]);
    if slot < |rows| - 1 {
      TotalZero(rows[..|rows| - 1], slot);
    }
  }

  lemma {:induction false} TotalNonNegative(rows: Rows)
    requires forall k :: 0 <= k < |rows| && rows[k].Some? ==> rows[k].value.activeCount >= 0
    ensures Total(rows) >= 0
  {
    if rows != [] {
      TotalNonNegative(rows[..|rows| - 1]);
    }
  }

  // ---------- planned changes ----------

  datatype Kind = Refuse | Update | Add | Replug | ReplugInPlace | Remove

  datatype Result = Ok | NoSlots | PluginFail | ReplugFail | BackendUnavail | InvalidType | InvalidIndex

  datatype PadChange = PadChange(
    kind: Kind, desc: Descriptor, result: Result, appliedType: nat, serial: nat, retiring: nat,
    waits: bool, busDown: bool, plugged: bool)

  /** Changes the commit has yet to look at in this round, with a serial reserved for them. */
  predicate Pending(pads: seq<PadChange>, k: nat, from: nat, second: bool) {
    from <= k < |pads| && pads[k].serial != 0 && pads[k].waits == second
  }

  ghost predicate DistinctIndices(pads: seq<PadChange>) {
    forall a, b :: 0 <= a < b < |pads| ==> pads[a].desc.index != pads[b].desc.index
  }

  function Last(ds: seq<Descriptor>, index: nat): Option<Descriptor> {
    if ds == [] then None
    else if ds[|ds| - 1].index == index then Some(ds[|ds| - 1])
    else Last(ds[..|ds| - 1], index)
  }

  /** One descriptor per index, the last one given for it. */
  ghost predicate Deduped(ds: seq<Descriptor>, out: seq<Descriptor>) {
    && (forall j :: 0 <= j < |out| ==> Last(ds, out[j].index) == Some(out[j]))
    && (forall a, b :: 0 <= a < b < |out| ==> out[a].index != out[b].index)
    && (forall k :: 0 <= k < |ds| ==> exists j :: 0 <= j < |out| && out[j].index == ds[k].index)
  }

  /** Where the list already has the index, or its length. */
  method FindIndex(out: seq<Descriptor>, index: nat) returns (j: nat)
    ensures j <= |out| && (j < |out| ==> out[j].index == index)
    ensures forall m :: 0 <= m < j ==> out[m].index != index
  {
    for m := 0 to |out|
      invariant forall i :: 0 <= i < m ==> out[i].index != index
    {
      if out[m].index == index {
        return m;
      }
    }
    return |out|;
  }

  lemma DedupStep(ds: seq<Descriptor>, out: seq<Descriptor>, d: Descriptor, j: nat, now: seq<Descriptor>)
    requires Deduped(ds, out) && j <= |out| && (forall m :: 0 <= m < j ==> out[m].index != d.index)
    requires j < |out| ==> out[j].index == d.index
    requires now == if j < |out| then out[j := d] else out + [d]
    ensures Deduped(ds + [d], now)
  {
    var more := ds + [d];
    assert more[..|ds|] == ds;
    forall m | 0 <= m < |now| ensures Last(more, now[m].index) == Some(now[m]) {
      assert m != j ==> m < |out| && now[m] == out[m] && out[m].index != d.index;
    }
    forall k | 0 <= k < |more| ensures exists m :: 0 <= m < |now| && now[m].index == more[k].index {
      if k < |ds| {
        var m :| 0 <= m < |out| && out[m].index == ds[k].index;
        assert now[m].index == more[k].index;
      } else {
        assert now[j].index == more[k].index;
      }
    }
  }

  method DedupDescriptors(ds: seq<Descriptor>) returns (out: seq<Descriptor>)
    ensures Deduped(ds, out)
  {
    out := [];
    for i := 0 to |ds|
      invariant Deduped(ds[..i], out)
    {
      var j := FindIndex(out, ds[i].index);
      var now := if j < |out| then out[j := ds[i]] else out + [ds[i]];
      DedupStep(ds[..i], out, ds[i], j, now);
      assert ds[..i + 1] == ds[..i] + [ds[i]];
      out := now;
    }
    assert ds[..|ds|] == ds;
  }

  // ---------- changes that wait ----------

  predicate Retires(pad: PadChange) {
    (pad.kind == Replug && pad.serial != 0) || pad.kind == ReplugInPlace || pad.kind == Remove
  }

  /** An addition that has no serial and does not wait is in a plan that frees none. */
  ghost predicate Deferred(pads: seq<PadChange>) {
    forall k, j :: 0 <= k < |pads| && 0 <= j < |pads| && pads[k].kind == Add && pads[k].serial == 0 && !pads[k].waits ==>
      pads[j].kind !in {Replug, ReplugInPlace, Remove}
  }

  lemma DeferredBy(pads: seq<PadChange>, now: seq<PadChange>, tried: Searches)
    requires TriedOk(pads, tried) && |now| == |pads|
    requires forall k :: 0 <= k < |pads| ==>
      now[k] == if pads[k].kind == Add && pads[k].serial == 0
                then pads[k].(waits := exists j :: 0 <= j < |pads| && Retires(pads[j])) else pads[k]
    ensures Deferred(now) && TriedOk(now, tried)
  {
    forall k, j | 0 <= k < |now| && 0 <= j < |now| && now[k].kind == Add && now[k].serial == 0 && !now[k].waits
      ensures now[j].kind !in {Replug, ReplugInPlace, Remove}
    {
      assert !Retires(pads[j]);
    }
  }

  /** An addition without a serial waits exactly when some change will free one. */
  method DeferUnservedAdds(pads: seq<PadChange>) returns (now: seq<PadChange>)
    ensures |now| == |pads|
    ensures forall k :: 0 <= k < |pads| ==>
      now[k] == if pads[k].kind == Add && pads[k].serial == 0
                then pads[k].(waits := exists j :: 0 <= j < |pads| && Retires(pads[j])) else pads[k]
  {
    var retires := false;
    for k := 0 to |pads|
      invariant retires <==> exists j :: 0 <= j < k && Retires(pads[j])
    {
      var swaps := pads[k].kind == Replug && pads[k].serial != 0;
      retires := retires || swaps || pads[k].kind == ReplugInPlace || pads[k].kind == Remove;
    }
    now := pads;
    for k := 0 to |pads|
      invariant |now| == |pads|
      invariant forall j :: 0 <= j < |pads| ==>
        now[j] == if j < k && pads[j].kind == Add && pads[j].serial == 0 then pads[j].(waits := retires) else pads[j]
    {
      if now[k].kind == Add && now[k].serial == 0 {
        now := now[k := now[k].(waits := retires)];
      }
    }
  }

  // ---------- the plan for a declared set ----------

  predicate Named(desired: seq<Descriptor>, index: nat) {
    exists m :: 0 <= m < |desired| && desired[m].index == index
  }

  predicate IsRemoval(cs: seq<Controller>, desired: seq<Descriptor>, pad: PadChange) {
    && pad.kind == Remove && pad.serial == 0 && !pad.waits && !pad.plugged
    && pad.desc.index < |cs| && cs[pad.desc.index].active && !Named(desired, pad.desc.index)
  }

  function PlanRemoval(index: nat): PadChange {
    PadChange(Remove, Descriptor(index, XBOX, 0, 0, ""), Ok, XBOX, 0, 0, false, false, false)
  }

  /** Removals for exactly the active pads the set does not name. */
  ghost predicate Removals(cs: seq<Controller>, desired: seq<Descriptor>, pads: seq<PadChange>) {
    && (forall j :: 0 <= j < |pads| ==> IsRemoval(cs, desired, pads[j]))
    && DistinctIndices(pads)
    && (forall i: nat :: i < |cs| && cs[i].active && !Named(desired, i) ==>
          exists j :: 0 <= j < |pads| && pads[j].desc.index == i)
  }

  method PlanRemovals(cs: seq<Controller>, desired: seq<Descriptor>) returns (pads: seq<PadChange>)
    requires |cs| == CONTROLLERS
    ensures Removals(cs, desired, pads)
  {
    var kept := seq(CONTROLLERS, _ => false);
    for m := 0 to |desired|
      invariant |kept| == CONTROLLERS && forall i: nat :: i < CONTROLLERS ==> (kept[i] <==> Named(desired[..m], i))
    {
      NamedNext(desired, m);
      if desired[m].index < CONTROLLERS {
        kept := kept[desired[m].index := true];
      }
    }
    assert desired[..|desired|] == desired;
    pads := [];
    for i := 0 to CONTROLLERS
      invariant forall j :: 0 <= j < |pads| ==> IsRemoval(cs, desired, pads[j]) && pads[j].desc.index < i
      invariant DistinctIndices(pads)
      invariant forall k: nat :: k < i && cs[k].active && !Named(desired, k) ==>
        exists j :: 0 <= j < |pads| && pads[j].desc.index == k
    {
      if cs[i].active && !kept[i] {
        ghost var was := pads;
        pads := pads + [PlanRemoval(i)];
        assert forall j :: 0 <= j < |was| ==> pads[j] == was[j];
        assert pads[|was|].desc.index == i;
      }
    }
  }

  lemma NamedNext(desired: seq<Descriptor>, m: nat)
    requires m < |desired|
    ensures forall i: nat :: Named(desired[..m + 1], i) <==> Named(desired[..m], i) || desired[m].index == i
  {
    var before, after := desired[..m], desired[..m + 1];
    forall i: nat ensures Named(after, i) <==> Named(before, i) || desired[m].index == i {
      if Named(before, i) {
        var j :| 0 <= j < |before| && before[j].index == i;
        assert after[j].index == i;
      }
      if desired[m].index == i {
        assert after[m].index == i;
      }
      if Named(after, i) {
        var j :| 0 <= j < |after| && after[j].index == i;
        assert j < m ==> before[j].index == i;
      }
    }
  }

  /** A search for a serial: what was not to be had, and how often retired serials had been settled before it. */
  datatype Search = Search(taken: set<nat>, after: nat)

  /** The last search made for each index. */
  type Searches = map<nat, Search>

  predicate FoundAllTaken(tried: Searches, index: nat) {
    index in tried && tried[index].taken == SerialPool.AllSerials()
  }

  /** A change left without a serial found every one taken; one that is to swap serials has its new one. */
  ghost predicate TriedOk(pads: seq<PadChange>, tried: Searches) {
    && (forall k :: 0 <= k < |pads| && pads[k].kind in {Add, ReplugInPlace} && pads[k].serial == 0 ==>
          FoundAllTaken(tried, pads[k].desc.index))
    && (forall k :: 0 <= k < |pads| && pads[k].kind == Replug ==> pads[k].serial != 0)
  }

  lemma TriedNext(pads: seq<PadChange>, tried: Searches, pad: PadChange, now: Searches)
    requires TriedOk(pads, tried) && DistinctIndices(pads + [pad])
    requires forall i :: i in tried && i != pad.desc.index ==> i in now && now[i] == tried[i]
    requires pad.kind in {Add, ReplugInPlace} && pad.serial == 0 ==> FoundAllTaken(now, pad.desc.index)
    requires pad.kind == Replug ==> pad.serial != 0
    ensures TriedOk(pads + [pad], now)
  {
    var more := pads + [pad];
    forall k | 0 <= k < |pads| ensures more[k] == pads[k] && pads[k].desc.index != pad.desc.index {
      assert more[k].desc.index != more[|pads|].desc.index;
    }
  }

  /** No change has been plugged yet, and those that wait have no serial. */
  ghost predicate Unplugged(pads: seq<PadChange>) {
    forall k :: 0 <= k < |pads| ==> !pads[k].plugged && (pads[k].waits ==> pads[k].serial == 0)
  }

  ghost predicate DistinctDescriptors(ds: seq<Descriptor>) {
    forall a, b :: 0 <= a < b < |ds| ==> ds[a].index != ds[b].index
  }

  /** The changes that carry out a declared set: removals, then one change per descriptor, for the first m. */
  ghost predicate PlanFor(cs: seq<Controller>, supported: set<nat>, desired: seq<Descriptor>, pads: seq<PadChange>,
                          r: nat, m: nat)
    requires |cs| == CONTROLLERS
  {
    && m <= |desired| && |pads| == r + m && DistinctIndices(pads) && Removals(cs, desired, pads[..r])
    && forall k :: r <= k < |pads| ==> pads[k].desc == desired[k - r] && PlanOk(cs, supported, AsPlanned(pads[k]))
  }

  lemma PlanNext(cs: seq<Controller>, supported: set<nat>, desired: seq<Descriptor>, pads: seq<PadChange>, r: nat,
                 m: nat, pad: PadChange)
    requires |cs| == CONTROLLERS && PlanFor(cs, supported, desired, pads, r, m) && DistinctDescriptors(desired)
    requires m < |desired| && pad.desc == desired[m] && PlanOk(cs, supported, pad)
    requires AsPlanned(pad) == pad.(busDown := false)
    ensures PlanFor(cs, supported, desired, pads + [pad], r, m + 1)
  {
    var more := pads + [pad];
    assert more[..r] == pads[..r];
    forall k | 0 <= k < |pads| ensures more[k] == pads[k] && pads[k].desc.index != pad.desc.index {
      if k < r {
        assert IsRemoval(cs, desired, pads[..r][k]);
      }
    }
  }

  /** What happens to a change's serial, plug and wait leaves the plan what it was. */
  lemma PlanStays(cs: seq<Controller>, supported: set<nat>, desired: seq<Descriptor>, pads: seq<PadChange>, r: nat,
                  m: nat, now: seq<PadChange>)
    requires |cs| == CONTROLLERS && PlanFor(cs, supported, desired, pads, r, m) && |now| == |pads|
    requires forall k :: 0 <= k < |pads| ==>
      AsPlanned(now[k]) == AsPlanned(pads[k]) && (pads[k].kind == Remove ==> now[k] == pads[k])
    ensures PlanFor(cs, supported, desired, now, r, m)
  {
    forall k | 0 <= k < |pads| ensures now[k].desc == pads[k].desc {
      assert AsPlanned(now[k]).desc == AsPlanned(pads[k]).desc;
    }
    assert now[..r] == pads[..r] by {
      forall k | 0 <= k < r ensures now[k] == pads[k] {
        assert IsRemoval(cs, desired, pads[..r][k]);
      }
    }
  }

  predicate PlugsInRound(pad: PadChange, second: bool) {
    pad.kind in {Add, Replug, ReplugInPlace} && pad.serial != 0 && pad.waits == second
  }

  /** A round of plugs: only pending changes are touched, and only in what became of their plug. */
  ghost predicate PlugRound(pads: seq<PadChange>, now: seq<PadChange>, second: bool) {
    && |now| == |pads|
    && (forall k :: 0 <= k < |pads| ==> now[k] == pads[k].(plugged := now[k].plugged, busDown := now[k].busDown))
    && (forall k :: 0 <= k < |pads| && !PlugsInRound(pads[k], second) ==> now[k] == pads[k])
  }

  // ---------- what every serial in use is in use for ----------

  datatype Use = Bound(owner: Owner) | Planned(k: nat) | Retired

  /** Rows, serials in use, serials quarantined, and serials some backend holds a device on. */
  datatype World = World(rows: Rows, use: map<int, Use>, quarantined: set<nat>, held: set<nat>)

  /** Nothing is held but on a serial in use or quarantined, and no serial is both. */
  ghost predicate SerialsOk(w: World) {
    && (forall s :: s in w.use ==> SerialPool.Known(s) && s !in w.quarantined)
    && (forall s :: s in w.held ==> s in w.use || s in w.quarantined)
  }

  /** A serial is bound to exactly the active pad that carries it, and is plugged. */
  ghost predicate BoundOk(w: World) {
    && (forall s :: s in w.use && w.use[s].Bound? ==> s in w.held && ActiveAt(w.rows, w.use[s].owner, s))
    && (forall o, s :: ActiveAt(w.rows, o, s) ==> s in w.use && w.use[s] == Bound(o))
  }

  /** A serial is planned exactly for the pending change that carries it, and held once that is plugged. */
  ghost predicate PlannedOk(w: World, pads: seq<PadChange>, from: nat, second: bool) {
    && (forall s :: s in w.use && w.use[s].Planned? ==>
          Pending(pads, w.use[s].k, from, second) && pads[w.use[s].k].serial == s)
    && (forall k: nat :: Pending(pads, k, from, second) ==>
          pads[k].serial in w.use && w.use[pads[k].serial] == Planned(k) && (pads[k].serial in w.held <==> pads[k].plugged))
  }

  ghost predicate RetiredOk(w: World, retired: seq<nat>) {
    && (forall s :: s in w.use && w.use[s].Retired? ==> s in retired)
    && (forall j :: 0 <= j < |retired| ==> retired[j] in w.use && w.use[retired[j]] == Retired)
    && (forall i, j :: 0 <= i < j < |retired| ==> retired[i] != retired[j])
  }

  ghost predicate RowsOk(rows: Rows) {
    |rows| == SESSIONS && forall k :: 0 <= k < SESSIONS && rows[k].Some? ==> RowOk(rows[k].value)
  }

  ghost predicate Accounted(w: World, pads: seq<PadChange>, from: nat, second: bool, retired: seq<nat>) {
    RowsOk(w.rows) && SerialsOk(w) && BoundOk(w) && PlannedOk(w, pads, from, second) && RetiredOk(w, retired)
  }

  // ---------- steps that keep the account ----------

  /** A serial neither in use nor quarantined is held by nobody, and may be reserved for a new change. */
  lemma Reserve(w: World, pads: seq<PadChange>, second: bool, retired: seq<nat>, pad: PadChange)
    requires Accounted(w, pads, 0, second, retired)
    requires pad.waits == second && SerialPool.Known(pad.serial) && pad.serial !in w.use && pad.serial !in w.quarantined
    requires !pad.plugged
    ensures Accounted(w.(use := w.use[pad.serial := Planned(|pads|)]), pads + [pad], 0, second, retired)
  {
    var v := w.(use := w.use[pad.serial := Planned(|pads|)]);
    var more := pads + [pad];
    assert forall k :: 0 <= k < |pads| ==> more[k] == pads[k];
    forall k: nat | Pending(more, k, 0, second)
      ensures more[k].serial in v.use && v.use[more[k].serial] == Planned(k)
      ensures (more[k].serial in v.held <==> more[k].plugged)
    {
      assert k < |pads| ==> Pending(pads, k, 0, second);
    }
    forall s | s in v.use && v.use[s].Planned?
      ensures Pending(more, v.use[s].k, 0, second) && more[v.use[s].k].serial == s
    {
      assert s != pad.serial ==> Pending(pads, w.use[s].k, 0, second);
    }
  }

  /** A change that reserves nothing adds nothing to the account. */
  lemma Append(w: World, pads: seq<PadChange>, second: bool, retired: seq<nat>, pad: PadChange)
    requires Accounted(w, pads, 0, second, retired) && (pad.serial == 0 || pad.waits != second)
    ensures Accounted(w, pads + [pad], 0, second, retired)
  {
    var more := pads + [pad];
    assert forall k :: 0 <= k < |pads| ==> more[k] == pads[k];
    forall k: nat | Pending(more, k, 0, second)
      ensures more[k].serial in w.use && w.use[more[k].serial] == Planned(k)
      ensures (more[k].serial in w.held <==> more[k].plugged)
    {
      assert Pending(pads, k, 0, second);
    }
    forall s | s in w.use && w.use[s].Planned?
      ensures Pending(more, w.use[s].k, 0, second) && more[w.use[s].k].serial == s
    {
      assert Pending(pads, w.use[s].k, 0, second);
    }
  }

  /** Changes without a serial may be relabelled freely. */
  lemma Relabel(w: World, pads: seq<PadChange>, now: seq<PadChange>, second: bool, retired: seq<nat>)
    requires Accounted(w, pads, 0, second, retired) && |now| == |pads|
    requires forall k :: 0 <= k < |pads| ==> now[k] == pads[k] || (now[k].serial == 0 && pads[k].serial == 0)
    ensures Accounted(w, now, 0, second, retired)
  {
    forall k: nat | Pending(now, k, 0, second)
      ensures now[k].serial in w.use && w.use[now[k].serial] == Planned(k)
      ensures (now[k].serial in w.held <==> now[k].plugged)
    {
      assert Pending(pads, k, 0, second);
    }
    forall s | s in w.use && w.use[s].Planned?
      ensures Pending(now, w.use[s].k, 0, second) && now[w.use[s].k].serial == s
    {
      assert Pending(pads, w.use[s].k, 0, second);
    }
  }

  /** One change of the list replaced by another for the same serial and round. */
  lemma Replace(w: World, v: World, pads: seq<PadChange>, k: nat, pad: PadChange, second: bool, retired: seq<nat>)
    requires Accounted(w, pads, 0, second, retired) && k < |pads|
    requires pad.serial == pads[k].serial && pad.waits == pads[k].waits
    requires v == w.(held := v.held)
    requires v.held == if pad.plugged && Pending(pads, k, 0, second) then w.held + {pad.serial} else w.held
    requires Pending(pads, k, 0, second) && !pad.plugged ==> !pads[k].plugged
    ensures Accounted(v, pads[k := pad], 0, second, retired)
  {
    var now := pads[k := pad];
    forall j: nat | Pending(now, j, 0, second)
      ensures now[j].serial in v.use && v.use[now[j].serial] == Planned(j)
      ensures (now[j].serial in v.held <==> now[j].plugged)
    {
      assert Pending(pads, j, 0, second);
      assert j != k && Pending(pads, k, 0, second) ==> pads[j].serial != pads[k].serial;
    }
    forall s | s in v.use && v.use[s].Planned?
      ensures Pending(now, v.use[s].k, 0, second) && now[v.use[s].k].serial == s
    {
      assert Pending(pads, w.use[s].k, 0, second);
    }
  }

  /** The changes after the one committed are as they were. */
  predicate SameAfter(pads: seq<PadChange>, now: seq<PadChange>, k: nat) {
    |now| == |pads| && forall j :: k < j < |pads| ==> now[j] == pads[j]
  }

  /** Planned serials but for the k-th change's stay planned. */
  ghost predicate KeepsPlanned(w: World, v: World, k: nat) {
    && v.held == w.held
    && (forall s :: s in v.use && v.use[s].Planned? ==> s in w.use && w.use[s] == v.use[s] && v.use[s].k != k)
    && (forall s :: s in w.use && w.use[s].Planned? && w.use[s].k != k ==> s in v.use && v.use[s] == w.use[s])
  }

  lemma PlannedNext(w: World, v: World, pads: seq<PadChange>, now: seq<PadChange>, k: nat, second: bool)
    requires PlannedOk(w, pads, k, second) && SameAfter(pads, now, k) && KeepsPlanned(w, v, k)
    ensures PlannedOk(v, now, k + 1, second)
  {
    forall j: nat | Pending(now, j, k + 1, second)
      ensures now[j].serial in v.use && v.use[now[j].serial] == Planned(j)
      ensures (now[j].serial in v.held <==> now[j].plugged)
    {
      assert Pending(pads, j, k, second);
    }
    forall s | s in v.use && v.use[s].Planned?
      ensures Pending(now, v.use[s].k, k + 1, second) && now[v.use[s].k].serial == s
    {
      assert Pending(pads, w.use[s].k, k, second);
    }
  }

  /** The row with one controller changed. */
  ghost predicate Changed(w: World, o: Owner, row: Row) {
    && o.slot < |w.rows| && w.rows[o.slot].Some? && o.index < CONTROLLERS && |w.rows[o.slot].value.controllers| == CONTROLLERS
    && |row.controllers| == CONTROLLERS
    && (forall i :: 0 <= i < CONTROLLERS && i != o.index ==> row.controllers[i] == w.rows[o.slot].value.controllers[i])
    && RowOk(row)
  }

  lemma ActiveAfter(w: World, o: Owner, row: Row, p: Owner, s: int)
    requires Changed(w, o, row)
    ensures ActiveAt(w.rows[o.slot := Some(row)], p, s) <==>
            if p == o then row.controllers[o.index].active && row.controllers[o.index].serial == s else ActiveAt(w.rows, p, s)
  {
  }

  /** A change with nothing reserved, on a pad that keeps its serial. */
  lemma CommitInPlace(w: World, pads: seq<PadChange>, now: seq<PadChange>, k: nat, second: bool, retired: seq<nat>,
                      o: Owner, row: Row)
    requires Accounted(w, pads, k, second, retired) && k < |pads| && !Pending(pads, k, k, second)
    requires SameAfter(pads, now, k)
    requires Changed(w, o, row)
    requires var c, d := w.rows[o.slot].value.controllers[o.index], row.controllers[o.index]; c.active == d.active && c.serial == d.serial
    ensures Accounted(w.(rows := w.rows[o.slot := Some(row)]), now, k + 1, second, retired)
  {
    var v := w.(rows := w.rows[o.slot := Some(row)]);
    forall p, s ensures ActiveAt(v.rows, p, s) == ActiveAt(w.rows, p, s) {
      ActiveAfter(w, o, row, p, s);
    }
    forall s | s in w.use && w.use[s].Planned? ensures w.use[s].k != k {
      assert Pending(pads, w.use[s].k, k, second);
    }
    PlannedNext(w, v, pads, now, k, second);
  }

  /** A row changed where no serial is concerned. */
  lemma TouchRow(w: World, pads: seq<PadChange>, k: nat, second: bool, retired: seq<nat>, o: Owner, row: Row)
    requires Accounted(w, pads, k, second, retired) && Changed(w, o, row)
    requires var c, d := w.rows[o.slot].value.controllers[o.index], row.controllers[o.index]; c.active == d.active && c.serial == d.serial
    ensures Accounted(w.(rows := w.rows[o.slot := Some(row)]), pads, k, second, retired)
  {
    var v := w.(rows := w.rows[o.slot := Some(row)]);
    forall p, s ensures ActiveAt(v.rows, p, s) == ActiveAt(w.rows, p, s) {
      ActiveAfter(w, o, row, p, s);
    }
  }

  /** A change that touches no pad at all. */
  lemma CommitNothing(w: World, pads: seq<PadChange>, now: seq<PadChange>, k: nat, second: bool, retired: seq<nat>)
    requires Accounted(w, pads, k, second, retired) && k < |pads| && !Pending(pads, k, k, second)
    requires SameAfter(pads, now, k)
    ensures Accounted(w, now, k + 1, second, retired)
  {
    forall s | s in w.use && w.use[s].Planned? ensures w.use[s].k != k {
      assert Pending(pads, w.use[s].k, k, second);
    }
    PlannedNext(w, w, pads, now, k, second);
  }

  /** A reserved serial whose plug failed goes back to the pool. */
  lemma CommitDrop(w: World, pads: seq<PadChange>, now: seq<PadChange>, k: nat, second: bool, retired: seq<nat>)
    requires Accounted(w, pads, k, second, retired) && Pending(pads, k, k, second) && !pads[k].plugged
    requires SameAfter(pads, now, k)
    ensures Accounted(w.(use := w.use - {pads[k].serial}), now, k + 1, second, retired)
  {
    var v := w.(use := w.use - {pads[k].serial});
    PlannedNext(w, v, pads, now, k, second);
  }

  /** Bound serials but for one pad's stay bound, and that pad's are as its row says. */
  ghost predicate Rebinds(w: World, v: World, o: Owner, c: Controller) {
    && (forall s :: s in v.use && v.use[s].Bound? && v.use[s].owner != o ==> s in w.use && w.use[s] == v.use[s])
    && (forall s :: s in w.use && w.use[s].Bound? && w.use[s].owner != o ==> s in v.use && v.use[s] == w.use[s])
    && (forall s :: s in v.use && v.use[s] == Bound(o) ==> c.active && s == c.serial)
    && (c.active ==> c.serial in v.use && v.use[c.serial] == Bound(o) && c.serial in v.held)
  }

  lemma BoundNext(w: World, v: World, o: Owner, row: Row)
    requires BoundOk(w) && Changed(w, o, row) && v.held == w.held
    requires v.rows == w.rows[o.slot := Some(row)] && Rebinds(w, v, o, row.controllers[o.index])
    ensures BoundOk(v)
  {
    forall p, s
      ensures ActiveAt(v.rows, p, s) <==>
              if p == o then row.controllers[o.index].active && row.controllers[o.index].serial == s else ActiveAt(w.rows, p, s)
    {
      ActiveAfter(w, o, row, p, s);
    }
  }

  lemma OwnedOnce(w: World, o: Owner, serial: nat)
    requires BoundOk(w) && o.slot < |w.rows| && w.rows[o.slot].Some? && o.index < |w.rows[o.slot].value.controllers|
    requires var c := w.rows[o.slot].value.controllers[o.index]; !c.active || c.serial == serial
    ensures forall s :: s in w.use && w.use[s] == Bound(o) ==>
      s == serial && w.rows[o.slot].value.controllers[o.index].active
  {
    forall s | s in w.use && w.use[s] == Bound(o)
      ensures s == serial && w.rows[o.slot].value.controllers[o.index].active
    {
      assert ActiveAt(w.rows, w.use[s].owner, s);
    }
  }

  lemma RetiredNext(w: World, v: World, retired: seq<nat>, serial: nat)
    requires RetiredOk(w, retired) && serial in w.use && !w.use[serial].Retired? && serial in v.use
    requires v.use[serial].Retired?
    requires forall s :: s != serial ==> (s in w.use && w.use[s].Retired? <==> s in v.use && v.use[s].Retired?)
    ensures RetiredOk(v, retired + [serial])
  {
    var more := retired + [serial];
    assert forall j :: 0 <= j < |retired| ==> more[j] == retired[j] && retired[j] != serial;
    assert more[|retired|] == serial;
  }

  /** A plugged serial becomes an inactive pad's. */
  lemma CommitBind(w: World, pads: seq<PadChange>, now: seq<PadChange>, k: nat, second: bool, retired: seq<nat>,
                   o: Owner, row: Row)
    requires Accounted(w, pads, k, second, retired) && Pending(pads, k, k, second) && pads[k].plugged
    requires SameAfter(pads, now, k)
    requires Changed(w, o, row) && !w.rows[o.slot].value.controllers[o.index].active
    requires row.controllers[o.index].active && row.controllers[o.index].serial == pads[k].serial
    ensures Accounted(World(w.rows[o.slot := Some(row)], w.use[pads[k].serial := Bound(o)], w.quarantined, w.held), now, k + 1, second, retired)
  {
    var v := World(w.rows[o.slot := Some(row)], w.use[pads[k].serial := Bound(o)], w.quarantined, w.held);
    assert SerialsOk(v) && RowsOk(v.rows);
    assert BoundOk(v) by {
      OwnedOnce(w, o, pads[k].serial);
      BoundNext(w, v, o, row);
    }
    assert RetiredOk(v, retired);
    PlannedNext(w, v, pads, now, k, second);
  }

  /** An active pad gives its serial up, to be unplugged once no reader can hold it. */
  lemma CommitVacate(w: World, pads: seq<PadChange>, now: seq<PadChange>, k: nat, second: bool, retired: seq<nat>,
                     o: Owner, row: Row)
    requires Accounted(w, pads, k, second, retired) && k < |pads| && !Pending(pads, k, k, second)
    requires SameAfter(pads, now, k)
    requires Changed(w, o, row) && w.rows[o.slot].value.controllers[o.index].active && !row.controllers[o.index].active
    ensures var serial := w.rows[o.slot].value.controllers[o.index].serial;
      Accounted(w.(rows := w.rows[o.slot := Some(row)], use := w.use[serial := Retired]), now, k + 1, second, retired + [serial])
  {
    var serial := w.rows[o.slot].value.controllers[o.index].serial;
    assert ActiveAt(w.rows, o, serial);
    var v := w.(rows := w.rows[o.slot := Some(row)], use := w.use[serial := Retired]);
    assert SerialsOk(v) && RowsOk(v.rows);
    assert BoundOk(v) by {
      OwnedOnce(w, o, serial);
      BoundNext(w, v, o, row);
    }
    assert RetiredOk(v, retired + [serial]) by {
      RetiredNext(w, v, retired, serial);
    }
    forall s | s in w.use && w.use[s].Planned? ensures w.use[s].k != k {
      assert Pending(pads, w.use[s].k, k, second);
    }
    PlannedNext(w, v, pads, now, k, second);
  }

  /** An active pad moves to the serial plugged for it, and gives its old one up. */
  lemma CommitSwap(w: World, pads: seq<PadChange>, now: seq<PadChange>, k: nat, second: bool, retired: seq<nat>,
                   o: Owner, row: Row)
    requires Accounted(w, pads, k, second, retired) && Pending(pads, k, k, second) && pads[k].plugged
    requires SameAfter(pads, now, k)
    requires Changed(w, o, row) && w.rows[o.slot].value.controllers[o.index].active
    requires row.controllers[o.index].active && row.controllers[o.index].serial == pads[k].serial
    ensures var serial := w.rows[o.slot].value.controllers[o.index].serial;
      Accounted(World(w.rows[o.slot := Some(row)], w.use[serial := Retired][pads[k].serial := Bound(o)], w.quarantined, w.held),
                now, k + 1, second, retired + [serial])
  {
    var serial := w.rows[o.slot].value.controllers[o.index].serial;
    assert ActiveAt(w.rows, o, serial);
    var taken := pads[k].serial;
    assert w.use[serial] == Bound(o) && w.use[taken] == Planned(k) && serial != taken;
    assert forall s :: s in w.use && w.use[s] == Planned(k) ==> s == taken;
    var v := World(w.rows[o.slot := Some(row)], w.use[serial := Retired][taken := Bound(o)], w.quarantined, w.held);
    assert forall s :: s != serial && s != taken ==>
      (s in v.use <==> s in w.use) && (s in w.use ==> v.use[s] == w.use[s]);
    assert SerialsOk(v) && RowsOk(v.rows);
    assert BoundOk(v) by {
      OwnedOnce(w, o, serial);
      BoundNext(w, v, o, row);
    }
    assert RetiredOk(v, retired + [serial]) by {
      RetiredNext(w, v, retired, serial);
    }
    PlannedNext(w, v, pads, now, k, second);
  }

  /** With nothing planned any list whose changes are settled or wait without a serial will do. */
  lemma NonePending(w: World, pads: seq<PadChange>, second: bool, retired: seq<nat>,
                    now: seq<PadChange>, from: nat, nowSecond: bool)
    requires Accounted(w, pads, |pads|, second, retired)
    requires forall k: nat :: !Pending(now, k, from, nowSecond)
    ensures Accounted(w, now, from, nowSecond, retired)
  {
    assert forall s :: s in w.use ==> !w.use[s].Planned?;
  }

  /** With no change pending no serial is planned, whatever changes there are. */
  lemma NothingPlanned(w: World, pads: seq<PadChange>, now: seq<PadChange>, from: nat, second: bool)
    requires Accounted(w, pads, 0, true, []) && forall k: nat :: !Pending(pads, k, 0, true)
    requires forall k: nat :: !Pending(now, k, from, second)
    ensures Accounted(w, now, from, second, [])
  {
    assert forall s :: s in w.use ==> !w.use[s].Planned?;
  }

  /** A change that had to wait, before its serial is sought again. */
  predicate Waiter(pad: PadChange) {
    pad.waits && (pad.kind == ReplugInPlace || pad.kind == Add)
  }

  /** A waiting change gets its serial, if there is one. */
  lemma ReserveWaiting(w: World, v: World, pads: seq<PadChange>, k: nat, serial: nat)
    requires Accounted(w, pads, 0, true, []) && k < |pads| && pads[k].waits && pads[k].serial == 0 && !pads[k].plugged
    requires if serial == 0 then v == w
             else SerialPool.Known(serial) && serial !in w.use && serial !in w.quarantined && v == w.(use := w.use[serial := Planned(k)])
    ensures Accounted(v, pads[k := pads[k].(serial := serial)], 0, true, [])
  {
    var now := pads[k := pads[k].(serial := serial)];
    forall j: nat | Pending(now, j, 0, true)
      ensures now[j].serial in v.use && v.use[now[j].serial] == Planned(j)
      ensures (now[j].serial in v.held <==> now[j].plugged)
    {
      assert j != k ==> Pending(pads, j, 0, true);
    }
    forall s | s in v.use && v.use[s].Planned?
      ensures Pending(now, v.use[s].k, 0, true) && now[v.use[s].k].serial == s
    {
      assert s != serial ==> Pending(pads, w.use[s].k, 0, true);
    }
  }

  /** A second search for serials: only waiting changes get one. */
  ghost predicate Searched(pads: seq<PadChange>, now: seq<PadChange>) {
    && |now| == |pads|
    && (forall k :: 0 <= k < |pads| ==> now[k] == pads[k].(serial := now[k].serial))
    && (forall k :: 0 <= k < |pads| && !Waiter(pads[k]) ==> now[k] == pads[k])
  }

  /** The search of one kind after k changes: those of other kinds and those to come are as they were. */
  ghost predicate Sweep(pads: seq<PadChange>, now: seq<PadChange>, kind: Kind, k: nat, any: bool) {
    && |now| == |pads|
    && (forall j :: 0 <= j < |pads| && (j >= k || pads[j].kind != kind) ==> now[j] == pads[j])
    && (any <==> exists j :: 0 <= j < k <= |pads| && Waiter(pads[j]) && pads[j].kind == kind)
    && (!any ==> now == pads)
  }

  lemma SweepNext(pads: seq<PadChange>, mid: seq<PadChange>, now: seq<PadChange>, kind: Kind, k: nat, any: bool, searched: bool)
    requires Sweep(pads, mid, kind, k, any) && k < |pads| && |now| == |mid| && now == mid[k := now[k]]
    requires searched <==> Waiter(mid[k]) && mid[k].kind == kind
    requires !searched ==> now == mid
    ensures Sweep(pads, now, kind, k + 1, any || searched)
  {
    assert mid[k] == pads[k];
  }

  /** A retired serial leaves the account: free if nothing is held on it, quarantined otherwise. */
  lemma SettleFirst(w: World, v: World, pads: seq<PadChange>, from: nat, second: bool, retired: seq<nat>)
    requires Accounted(w, pads, from, second, retired) && retired != []
    requires v.rows == w.rows && v.held == w.held && v.use == w.use - {retired[0]}
    requires v.quarantined == w.quarantined + {retired[0]} || (v.quarantined == w.quarantined && retired[0] !in w.held)
    ensures Accounted(v, pads, from, second, retired[1..])
  {
    var rest := retired[1..];
    assert w.use[retired[0]] == Retired;
    assert forall j :: 0 <= j < |rest| ==> rest[j] == retired[j + 1] && rest[j] != retired[0];
    assert RetiredOk(v, rest);
    assert BoundOk(v) && SerialsOk(v);
    forall k: nat | Pending(pads, k, from, second)
      ensures pads[k].serial in v.use && v.use[pads[k].serial] == Planned(k)
    {
      assert pads[k].serial in w.use;
    }
  }

  /** A closed bus holds nothing: with no active pad the account is empty. */
  lemma Closed(w: World)
    requires Accounted(w, [], 0, false, []) && Total(w.rows) == 0
    ensures w.use == map[] && Accounted(w.(quarantined := {}, held := {}), [], 0, false, [])
  {
    if s :| s in w.use {
      assert w.use[s].Bound?;
      var o := w.use[s].owner;
      assert ActiveAt(w.rows, o, s);
      TotalZero(w.rows, o.slot);
      CountZero(w.rows[o.slot].value.controllers, o.index);
      assert false;
    }
    assert forall s :: s !in w.use;
    assert w.use == map[];
  }

  // ---------- what a change does to its pad ----------

  predicate Fits(c: Controller, d: Descriptor) {
    c.active && c.kind == d.kind && c.identity == Identity(d.kind) && c.caps == d.caps && c.mode == SafeMode(d.mode) && c.backend == d.backend
  }

  function Vacated(c: Controller): Controller {
    c.(active := false, serial := 0)
  }

  /** The change planned for a descriptor, given the pads there are. */
  predicate PlanOk(cs: seq<Controller>, supported: set<nat>, pad: PadChange)
    requires |cs| == CONTROLLERS
  {
    var d := pad.desc;
    && !pad.plugged
    && if d.index >= CONTROLLERS then
         pad.kind == Refuse && pad.result == InvalidIndex && pad.serial == 0 && !pad.waits
       else if d.kind >= TYPES || Identity(d.kind) !in supported then
         && pad.kind == Refuse && pad.result == InvalidType && pad.serial == 0 && !pad.waits
         && pad.appliedType == (if cs[d.index].active then cs[d.index].kind else XBOX)
       else
         && pad.result == Ok && pad.appliedType == d.kind
         && if !cs[d.index].active then pad.kind == Add && !pad.waits
            else if Identity(d.kind) == cs[d.index].identity then pad.kind == Update && pad.serial == 0 && !pad.waits
            else (pad.kind == Replug && !pad.waits)
                 || (pad.kind == ReplugInPlace && pad.serial == 0 && pad.waits && pad.retiring == cs[d.index].serial)
  }

  /** The commit of one change in one round: the pad before and after, the change before and after. */
  predicate Committed(c: Controller, pad: PadChange, d: Controller, now: PadChange, second: bool) {
    && now == pad.(result := now.result, appliedType := now.appliedType)
    && match pad.kind
       case Refuse => d == c && now == pad
       case Update => d == c.(kind := pad.desc.kind, caps := pad.desc.caps, mode := SafeMode(pad.desc.mode), backend := pad.desc.backend) && now == pad
       case Remove => d == Vacated(c) && now == pad
       case Replug =>
         if pad.plugged then Fits(d, pad.desc) && d.serial == pad.serial && now == pad
         else d == c && now.result == ReplugFail && now.appliedType == c.kind
       case ReplugInPlace =>
         if !second then d == Vacated(c) && now == pad
         else if pad.plugged then Fits(d, pad.desc) && d.serial == pad.serial && now == pad
         else d == c && now.result == PluginFail
       case Add =>
         if !second && pad.waits then d == c && now == pad
         else if pad.plugged then Fits(d, pad.desc) && d.serial == pad.serial && now == pad
         else d == c && now.result == (if pad.serial == 0 then NoSlots else if pad.busDown then BackendUnavail else PluginFail)
  }

  function PadAt(cs: seq<Controller>, i: nat): Controller {
    if i < |cs| then cs[i] else NO_PAD
  }

  /** The plan behind a change, whatever became of its plug and its wait since. */
  function AsPlanned(pad: PadChange): PadChange {
    pad.(plugged := false, busDown := false, waits := pad.waits && pad.kind != Add)
  }

  /** What a result promises about the pad it is for; `tried` is what was unavailable at its last allocation. */
  predicate Done(c: Controller, d: Controller, pad: PadChange, supported: set<nat>, tried: set<nat>) {
    match pad.result
    case Ok => Fits(d, pad.desc) && pad.appliedType == pad.desc.kind
    case InvalidIndex => pad.desc.index >= CONTROLLERS
    case InvalidType =>
      && (pad.desc.kind >= TYPES || Identity(pad.desc.kind) !in supported)
      && d == c && pad.appliedType == (if c.active then c.kind else XBOX)
    case ReplugFail => c.active && Identity(pad.desc.kind) != c.identity && d == c && pad.appliedType == c.kind
    case NoSlots => !c.active && d == c && tried == SerialPool.AllSerials()
    case PluginFail => !d.active
    case BackendUnavail => !c.active && d == c
  }

  lemma DoneInOne(cs: seq<Controller>, supported: set<nat>, pad: PadChange, d: Controller, now: PadChange,
                  tried: set<nat>)
    requires |cs| == CONTROLLERS && PlanOk(cs, supported, AsPlanned(pad)) && !pad.waits
    requires forall i :: 0 <= i < |cs| ==> ControllerOk(cs[i])
    requires Committed(PadAt(cs, pad.desc.index), pad, d, now, false)
    requires pad.kind == Add && pad.serial == 0 ==> tried == SerialPool.AllSerials() && !pad.plugged
    ensures Done(PadAt(cs, pad.desc.index), d, now, supported, tried)
  {
  }

  lemma DoneInTwo(cs: seq<Controller>, supported: set<nat>, pad: PadChange, c: Controller, mid: PadChange,
                  again: PadChange, d: Controller, now: PadChange, tried: set<nat>)
    requires |cs| == CONTROLLERS && PlanOk(cs, supported, AsPlanned(pad)) && pad.waits && !pad.plugged
    requires Committed(PadAt(cs, pad.desc.index), pad, c, mid, false)
    requires again == mid.(serial := again.serial, plugged := again.plugged, busDown := again.busDown)
    requires Committed(c, again, d, now, true)
    requires pad.kind == Add && again.serial == 0 ==> tried == SerialPool.AllSerials() && !again.plugged
    ensures Done(PadAt(cs, pad.desc.index), d, now, supported, tried)
  {
  }
}
