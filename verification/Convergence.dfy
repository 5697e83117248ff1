/**
 What a whole operation does to a session's pads: the plan, both rounds and the search
 between them, put together.
 */
module Convergence {

  import opened Basics
  import opened Pads
  import opened Commit
  import SerialPool

  /** A change as planned for a pad, with what became of its plug. */
  ghost predicate PadSound(cs: seq<Controller>, supported: set<nat>, pad: PadChange)
    requires |cs| == CONTROLLERS
  {
    && (pad.waits ==> pad.serial == 0 && !pad.plugged) && (pad.plugged ==> pad.serial != 0)
    && if pad.kind == Remove then pad.desc.index < CONTROLLERS && cs[pad.desc.index].active && pad.serial == 0 && !pad.waits
       else PlanOk(cs, supported, AsPlanned(pad))
  }

  ghost predicate Sound(cs: seq<Controller>, supported: set<nat>, pads: seq<PadChange>)
    requires |cs| == CONTROLLERS
  {
    DistinctIndices(pads) && forall k :: 0 <= k < |pads| ==> PadSound(cs, supported, pads[k])
  }

  /** Only an active pad is made to swap serials. */
  lemma SwapsNeedPads(cs: seq<Controller>, supported: set<nat>, pads: seq<PadChange>, k: nat)
    requires |cs| == CONTROLLERS && Sound(cs, supported, pads) && k < |pads| && pads[k].kind == Replug
    ensures pads[k].desc.index < CONTROLLERS && cs[pads[k].desc.index].active
  {
    assert PadSound(cs, supported, pads[k]);
  }

  lemma SoundCommits(cs: seq<Controller>, supported: set<nat>, pads: seq<PadChange>)
    requires |cs| == CONTROLLERS && Sound(cs, supported, pads)
    ensures AllCommittable(cs, pads, false)
  {
    forall k | 0 <= k < |pads| ensures Committable(cs, pads[k], false) {
      assert PadSound(cs, supported, pads[k]);
    }
  }

  ghost predicate SameChanges(pads: seq<PadChange>, now: seq<PadChange>) {
    |now| == |pads| && forall k :: 0 <= k < |pads| ==> now[k].kind == pads[k].kind && now[k].desc == pads[k].desc
  }

  /** Changes that wait have neither serial nor plug yet. */
  ghost predicate WaitersIdle(pads: seq<PadChange>) {
    forall k :: 0 <= k < |pads| && pads[k].waits ==> Waiter(pads[k]) && pads[k].serial == 0 && !pads[k].plugged
  }

  /** Between the rounds a waiting change may get a serial and be plugged; nothing else happens to a change. */
  ghost predicate BetweenRounds(mid: seq<PadChange>, again: seq<PadChange>) {
    && |again| == |mid|
    && forall k :: 0 <= k < |mid| ==>
         && again[k] == mid[k].(serial := again[k].serial, plugged := again[k].plugged, busDown := again[k].busDown)
         && (!mid[k].waits ==> again[k] == mid[k])
         && (again[k].plugged && mid[k].waits ==> again[k].serial != 0)
  }

  lemma NoneWaited(a: Row, mid: seq<PadChange>)
    requires WaitersIdle(mid) && forall k :: 0 <= k < |mid| ==> !Waiter(mid[k])
    ensures BetweenRounds(mid, mid) && RoundOk(a, a, mid, mid, |mid|, true)
  {
  }

  lemma WaitersCommit(a: Row, b: Row, supported: set<nat>, first: seq<PadChange>, mid: seq<PadChange>,
                      again: seq<PadChange>)
    requires |a.controllers| == CONTROLLERS && Sound(a.controllers, supported, first)
    requires RoundOk(a, b, first, mid, |first|, false) && BetweenRounds(mid, again)
    ensures AllCommittable(b.controllers, again, true)
  {
    forall k | 0 <= k < |again|
      ensures again[k].desc == first[k].desc && (InRound(again[k], true) ==> Committable(b.controllers, again[k], true))
    {
      var i := first[k].desc.index;
      assert PadSound(a.controllers, supported, first[k]);
      assert Committed(PadAt(a.controllers, i), first[k], PadAt(b.controllers, i), mid[k], false);
    }
  }

  /** What was unavailable when a pad last sought a serial. */
  function TriedAt(tried: Searches, i: nat): set<nat> {
    if i in tried then tried[i].taken else {}
  }

  ghost predicate PadDone(a: Row, b: Row, pad: PadChange, supported: set<nat>, tried: Searches) {
    var i := pad.desc.index;
    if pad.kind == Remove then !PadAt(b.controllers, i).active
    else Done(PadAt(a.controllers, i), PadAt(b.controllers, i), pad, supported, TriedAt(tried, i))
  }

  /** A whole operation: every change has the outcome its result names, and no other pad is touched. */
  ghost predicate Converged(a: Row, b: Row, pads: seq<PadChange>, supported: set<nat>, tried: Searches) {
    && |a.controllers| == |b.controllers| == CONTROLLERS && EpochMoves(a, b)
    && b == a.(controllers := b.controllers, epoch := b.epoch, activeCount := b.activeCount)
    && (forall k :: 0 <= k < |pads| ==> PadDone(a, b, pads[k], supported, tried))
    && (forall i: nat :: i < CONTROLLERS && (forall k :: 0 <= k < |pads| ==> pads[k].desc.index != i) ==>
          b.controllers[i] == a.controllers[i])
  }

  lemma OneRoundDone(a: Row, b: Row, supported: set<nat>, first: PadChange, now: PadChange, tried: Searches)
    requires |a.controllers| == CONTROLLERS == |b.controllers| && PadSound(a.controllers, supported, first)
    requires !first.waits
    requires forall i :: 0 <= i < CONTROLLERS ==> ControllerOk(a.controllers[i])
    requires Committed(PadAt(a.controllers, first.desc.index), first, PadAt(b.controllers, first.desc.index), now, false)
    requires first.kind == Add && first.serial == 0 ==> TriedAt(tried, first.desc.index) == SerialPool.AllSerials()
    ensures PadDone(a, b, now, supported, tried)
  {
    if first.kind != Remove {
      DoneInOne(a.controllers, supported, first, PadAt(b.controllers, first.desc.index), now, TriedAt(tried, first.desc.index));
    }
  }

  lemma TwoRoundsDone(a: Row, b: Row, c: Row, supported: set<nat>, first: seq<PadChange>, mid: seq<PadChange>,
                      again: seq<PadChange>, now: seq<PadChange>, tried: Searches)
    requires |a.controllers| == CONTROLLERS == |b.controllers| && Sound(a.controllers, supported, first)
    requires forall i :: 0 <= i < CONTROLLERS ==> ControllerOk(a.controllers[i])
    requires RoundOk(a, b, first, mid, |first|, false) && BetweenRounds(mid, again)
    requires RoundOk(b, c, again, now, |again|, true)
    requires TriedOk(again, tried)
    ensures Converged(a, c, now, supported, tried)
  {
    forall k | 0 <= k < |now| ensures PadDone(a, c, now[k], supported, tried) && now[k].desc == first[k].desc {
      var i := first[k].desc.index;
      assert PadSound(a.controllers, supported, first[k]);
      assert Committed(PadAt(a.controllers, i), first[k], PadAt(b.controllers, i), mid[k], false);
      if first[k].waits {
        assert Committed(PadAt(b.controllers, i), again[k], PadAt(c.controllers, i), now[k], true);
        DoneInTwo(a.controllers, supported, first[k], PadAt(b.controllers, i), mid[k], again[k], PadAt(c.controllers, i), now[k], TriedAt(tried, i));
      } else {
        OneRoundDone(a, b, supported, first[k], mid[k], tried);
      }
    }
    forall i: nat | i < CONTROLLERS && (forall k :: 0 <= k < |now| ==> now[k].desc.index != i)
      ensures c.controllers[i] == a.controllers[i]
    {
      assert forall k :: 0 <= k < |first| ==> first[k].desc.index != i by {
        forall k | 0 <= k < |first| ensures first[k].desc.index != i {
          assert now[k].desc == first[k].desc;
        }
      }
    }
  }

  lemma PlugSound(cs: seq<Controller>, supported: set<nat>, planned: seq<PadChange>, plugged: seq<PadChange>)
    requires |cs| == CONTROLLERS && Sound(cs, supported, planned) && PlugRound(planned, plugged, false)
    requires Unplugged(planned)
    ensures Sound(cs, supported, plugged)
  {
    forall k | 0 <= k < |planned| ensures PadSound(cs, supported, plugged[k]) && plugged[k].desc == planned[k].desc {
      assert PadSound(cs, supported, planned[k]);
      assert AsPlanned(plugged[k]) == AsPlanned(planned[k]);
    }
  }

  lemma FirstSame(a: Row, b: Row, planned: seq<PadChange>, plugged: seq<PadChange>, mid: seq<PadChange>, tried: Searches)
    requires PlugRound(planned, plugged, false) && RoundOk(a, b, plugged, mid, |plugged|, false)
    requires TriedOk(planned, tried)
    ensures SameChanges(planned, mid) && TriedOk(mid, tried)
  {
    forall k | 0 <= k < |mid|
      ensures mid[k].kind == planned[k].kind && mid[k].desc == planned[k].desc && mid[k].serial == planned[k].serial
    {
      var i := plugged[k].desc.index;
      assert Committed(PadAt(a.controllers, i), plugged[k], PadAt(b.controllers, i), mid[k], false);
    }
  }

  lemma TriedAfter(a: Row, b: Row, first: seq<PadChange>, mid: seq<PadChange>, tried: Searches)
    requires RoundOk(a, b, first, mid, |first|, false) && TriedOk(first, tried)
    ensures TriedOk(mid, tried)
  {
    forall k | 0 <= k < |mid|
      ensures mid[k].kind == first[k].kind && mid[k].desc == first[k].desc && mid[k].serial == first[k].serial
    {
      var i := first[k].desc.index;
      assert Committed(PadAt(a.controllers, i), first[k], PadAt(b.controllers, i), mid[k], false);
    }
  }

  lemma CommitShape(a: Row, b: Row, first: seq<PadChange>, mid: seq<PadChange>)
    requires RoundOk(a, b, first, mid, |first|, false)
    ensures SameChanges(first, mid)
  {
    forall k | 0 <= k < |mid| ensures mid[k].kind == first[k].kind && mid[k].desc == first[k].desc {
      var i := first[k].desc.index;
      assert Committed(PadAt(a.controllers, i), first[k], PadAt(b.controllers, i), mid[k], false);
    }
  }

  lemma RoundsSame(b: Row, c: Row, mid: seq<PadChange>, again: seq<PadChange>, now: seq<PadChange>)
    requires BetweenRounds(mid, again) && RoundOk(b, c, again, now, |again|, true)
    ensures SameChanges(mid, now)
  {
    forall k | 0 <= k < |mid| ensures now[k].kind == mid[k].kind && now[k].desc == mid[k].desc {
      var i := again[k].desc.index;
      assert InRound(again[k], true) ==>
        Committed(PadAt(b.controllers, i), again[k], PadAt(c.controllers, i), now[k], true);
    }
  }

  lemma SameIndices(a: Row, b: Row, first: seq<PadChange>, mid: seq<PadChange>)
    requires RoundOk(a, b, first, mid, |first|, false) && DistinctIndices(first)
    ensures DistinctIndices(mid)
  {
    forall k | 0 <= k < |mid| ensures mid[k].desc == first[k].desc {
      assert Committed(PadAt(a.controllers, first[k].desc.index), first[k], PadAt(b.controllers, first[k].desc.index), mid[k], false);
    }
  }

  lemma IdleAfterRound(a: Row, b: Row, supported: set<nat>, first: seq<PadChange>, mid: seq<PadChange>)
    requires |a.controllers| == CONTROLLERS && Sound(a.controllers, supported, first)
    requires RoundOk(a, b, first, mid, |first|, false)
    ensures WaitersIdle(mid)
  {
    forall k | 0 <= k < |mid| ensures mid[k].waits ==> Waiter(mid[k]) && mid[k].serial == 0 && !mid[k].plugged {
      assert PadSound(a.controllers, supported, first[k]);
      assert Committed(PadAt(a.controllers, first[k].desc.index), first[k], PadAt(b.controllers, first[k].desc.index), mid[k], false);
    }
  }

  lemma SearchTried(pads: seq<PadChange>, tried: Searches, k: nat, serial: nat, now: Searches)
    requires TriedOk(pads, tried) && DistinctIndices(pads) && k < |pads|
    requires pads[k].kind != Replug && (serial == 0 ==> FoundAllTaken(now, pads[k].desc.index))
    requires forall i :: i in tried && i != pads[k].desc.index ==> i in now && now[i] == tried[i]
    ensures TriedOk(pads[k := pads[k].(serial := serial)], now)
    ensures DistinctIndices(pads[k := pads[k].(serial := serial)])
  {
  }

  lemma RoundsDone(a: Row, b: Row, c: Row, supported: set<nat>, planned: seq<PadChange>, first: seq<PadChange>,
                   mid: seq<PadChange>,
                   again: seq<PadChange>, now: seq<PadChange>, tried: Searches)
    requires RowOk(a) && |b.controllers| == CONTROLLERS && Sound(a.controllers, supported, first)
    requires SameChanges(planned, mid)
    requires RoundOk(a, b, first, mid, |first|, false) && BetweenRounds(mid, again)
    requires RoundOk(b, c, again, now, |again|, true)
    requires TriedOk(again, tried)
    ensures Converged(a, c, now, supported, tried) && SameChanges(planned, now)
  {
    RoundsSame(b, c, mid, again, now);
    TwoRoundsDone(a, b, c, supported, first, mid, again, now, tried);
  }

  lemma SingleSound(cs: seq<Controller>, supported: set<nat>, pad: PadChange, pads: seq<PadChange>)
    requires |cs| == CONTROLLERS && PlanOk(cs, supported, pad) && |pads| == 1
    requires pads[0] == pad || (pad.kind == Add && pad.serial == 0 && pads[0] == pad.(waits := pads[0].waits))
    ensures Sound(cs, supported, pads) && Unplugged(pads) && pads[0].kind != Remove && pads[0].desc == pad.desc
  {
    assert PlanOk(cs, supported, AsPlanned(pads[0]));
  }

  /** The pad at the index is gone, every other is untouched. */
  ghost predicate Removed(a: Row, b: Row, index: nat) {
    && |a.controllers| == CONTROLLERS == |b.controllers| && EpochMoves(a, b)
    && (index < CONTROLLERS ==> !b.controllers[index].active)
    && (forall i :: 0 <= i < CONTROLLERS && i != index ==> b.controllers[i] == a.controllers[i])
  }

  lemma RemovedOnly(a: Row, b: Row, index: nat, planned: seq<PadChange>, now: seq<PadChange>, supported: set<nat>,
                    tried: Searches)
    requires Converged(a, b, now, supported, tried) && SameChanges(planned, now)
    requires planned == if index < CONTROLLERS && a.controllers[index].active then [PlanRemoval(index)] else []
    ensures Removed(a, b, index)
  {
    if planned != [] {
      assert now[0].kind == Remove && now[0].desc.index == index;
      assert PadDone(a, b, now[0], supported, tried);
    }
  }

  lemma RemovalSound(w: World, cs: seq<Controller>, supported: set<nat>, index: nat, planned: seq<PadChange>)
    requires Accounted(w, [], 0, false, []) && |cs| == CONTROLLERS
    requires planned == if index < CONTROLLERS && cs[index].active then [PlanRemoval(index)] else []
    ensures Accounted(w, planned, 0, false, []) && Sound(cs, supported, planned) && Unplugged(planned)
    ensures TriedOk(planned, map[]) && Deferred(planned)
  {
    NonePending(w, [], false, [], planned, 0, false);
  }

  lemma PlanSound(cs: seq<Controller>, supported: set<nat>, desired: seq<Descriptor>, pads: seq<PadChange>, r: nat)
    requires |cs| == CONTROLLERS && PlanFor(cs, supported, desired, pads, r, |desired|) && Unplugged(pads)
    ensures Sound(cs, supported, pads)
  {
    forall k | 0 <= k < |pads| ensures PadSound(cs, supported, pads[k]) {
      if k < r {
        assert IsRemoval(cs, desired, pads[..r][k]);
      } else {
        assert PlanOk(cs, supported, AsPlanned(pads[k]));
      }
    }
  }

  lemma PlugPlan(cs: seq<Controller>, supported: set<nat>, desired: seq<Descriptor>, planned: seq<PadChange>, r: nat,
                 first: seq<PadChange>)
    requires |cs| == CONTROLLERS && PlanFor(cs, supported, desired, planned, r, |desired|)
    requires PlugRound(planned, first, false)
    ensures PlanFor(cs, supported, desired, first, r, |desired|)
  {
    forall k | 0 <= k < |planned|
      ensures AsPlanned(first[k]) == AsPlanned(planned[k]) && (planned[k].kind == Remove ==> first[k] == planned[k])
    {
    }
    PlanStays(cs, supported, desired, planned, r, |desired|, first);
  }

  /** Removals of every active pad not named, then one change per descriptor. */
  ghost predicate ShapedBy(cs: seq<Controller>, desired: seq<Descriptor>, pads: seq<PadChange>, r: nat) {
    && |pads| == r + |desired|
    && (forall k :: 0 <= k < r ==> pads[k].kind == Remove && !Named(desired, pads[k].desc.index))
    && (forall k :: r <= k < |pads| ==> pads[k].kind != Remove && pads[k].desc == desired[k - r])
    && (forall i: nat :: i < |cs| && cs[i].active && !Named(desired, i) ==>
          exists k :: 0 <= k < r && pads[k].desc.index == i)
  }

  lemma PlanShape(cs: seq<Controller>, supported: set<nat>, desired: seq<Descriptor>, pads: seq<PadChange>, r: nat)
    requires |cs| == CONTROLLERS && PlanFor(cs, supported, desired, pads, r, |desired|)
    ensures ShapedBy(cs, desired, pads, r)
  {
    forall k | 0 <= k < r ensures pads[k].kind == Remove && !Named(desired, pads[k].desc.index) {
      assert IsRemoval(cs, desired, pads[..r][k]);
    }
    forall i: nat | i < |cs| && cs[i].active && !Named(desired, i)
      ensures exists k :: 0 <= k < r && pads[k].desc.index == i
    {
      var k :| 0 <= k < |pads[..r]| && pads[..r][k].desc.index == i;
      assert pads[k].desc.index == i;
    }
    forall k | r <= k < |pads| ensures pads[k].kind != Remove && pads[k].desc == desired[k - r] {
      assert PlanOk(cs, supported, AsPlanned(pads[k]));
    }
  }

  lemma ShapeStays(cs: seq<Controller>, desired: seq<Descriptor>, pads: seq<PadChange>, r: nat, now: seq<PadChange>)
    requires ShapedBy(cs, desired, pads, r) && SameChanges(pads, now)
    ensures ShapedBy(cs, desired, now, r)
  {
    forall i: nat | i < |cs| && cs[i].active && !Named(desired, i)
      ensures exists k :: 0 <= k < r && now[k].desc.index == i
    {
      var k :| 0 <= k < r && pads[k].desc.index == i;
      assert now[k].desc.index == i;
    }
  }

  /** The changes an upsert reports on: all but the removals it made by itself. */
  function Reported(pads: seq<PadChange>): seq<PadChange> {
    if pads == [] then []
    else Reported(pads[..|pads| - 1]) + if pads[|pads| - 1].kind != Remove then [pads[|pads| - 1]] else []
  }

  lemma {:induction false} ReportedShape(pads: seq<PadChange>, r: nat)
    requires r <= |pads| && (forall k :: 0 <= k < r ==> pads[k].kind == Remove)
    requires (forall k :: r <= k < |pads| ==> pads[k].kind != Remove)
    ensures Reported(pads) == pads[r..]
  {
    if pads != [] {
      var n := |pads| - 1;
      var front := pads[..n];
      assert Reported(pads) == Reported(front) + if pads[n].kind != Remove then [pads[n]] else [];
      if r <= n {
        ReportedShape(front, r);
        assert pads[r..] == front[r..] + [pads[n]];
      } else {
        ReportedShape(front, n);
        assert front[n..] == [] && pads[r..] == [];
      }
    }
  }

  /**
   What a declared set comes to: one result per index, for the last descriptor given for
   it, each true of its pad; and no pad that is not named.
   */
  ghost predicate Declared(a: Row, b: Row, descriptors: seq<Descriptor>, results: seq<PadChange>, supported: set<nat>,
                           tried: Searches) {
    && |a.controllers| == |b.controllers| == CONTROLLERS && EpochMoves(a, b)
    && b == a.(controllers := b.controllers, epoch := b.epoch, activeCount := b.activeCount)
    && (forall m :: 0 <= m < |results| ==>
          && Last(descriptors, results[m].desc.index) == Some(results[m].desc)
          && results[m].kind != Remove && PadDone(a, b, results[m], supported, tried))
    && (forall m, n :: 0 <= m < n < |results| ==> results[m].desc.index != results[n].desc.index)
    && (forall k :: 0 <= k < |descriptors| ==>
          exists m :: 0 <= m < |results| && results[m].desc.index == descriptors[k].index)
    && (forall i: nat :: i < CONTROLLERS && !Named(descriptors, i) ==> !b.controllers[i].active)
  }

  lemma {:induction false} LastIsNamed(ds: seq<Descriptor>, i: nat)
    requires !Named(ds, i)
    ensures Last(ds, i) == None
  {
    if ds != [] {
      var rest := ds[..|ds| - 1];
      assert ds[|ds| - 1].index != i;
      forall m | 0 <= m < |rest| ensures rest[m].index != i {
        assert ds[m].index != i;
      }
      LastIsNamed(rest, i);
    }
  }

  lemma UnnamedGone(a: Row, b: Row, descriptors: seq<Descriptor>, desired: seq<Descriptor>, now: seq<PadChange>, r: nat,
                    supported: set<nat>, tried: Searches, i: nat)
    requires Deduped(descriptors, desired) && Converged(a, b, now, supported, tried)
    requires ShapedBy(a.controllers, desired, now, r)
    requires i < CONTROLLERS && !Named(descriptors, i)
    ensures !b.controllers[i].active
  {
    LastIsNamed(descriptors, i);
    forall m | 0 <= m < |desired| ensures desired[m].index != i {
      assert Last(descriptors, desired[m].index) == Some(desired[m]);
    }
    assert !Named(desired, i);
    if k :| 0 <= k < |now| && now[k].desc.index == i {
      assert PadDone(a, b, now[k], supported, tried);
    }
  }

  lemma DeclaredBy(a: Row, b: Row, descriptors: seq<Descriptor>, desired: seq<Descriptor>, now: seq<PadChange>, r: nat,
                   results: seq<PadChange>, supported: set<nat>, tried: Searches)
    requires Deduped(descriptors, desired) && Converged(a, b, now, supported, tried)
    requires ShapedBy(a.controllers, desired, now, r)
    requires results == Reported(now)
    ensures Declared(a, b, descriptors, results, supported, tried)
  {
    ReportedShape(now, r);
    assert forall m :: 0 <= m < |results| ==> results[m] == now[r + m] && results[m].desc == desired[m];
    forall k | 0 <= k < |descriptors|
      ensures exists m :: 0 <= m < |results| && results[m].desc.index == descriptors[k].index
    {
      var m :| 0 <= m < |desired| && desired[m].index == descriptors[k].index;
      assert results[m].desc.index == descriptors[k].index;
    }
    forall i: nat | i < CONTROLLERS && !Named(descriptors, i) ensures !b.controllers[i].active {
      UnnamedGone(a, b, descriptors, desired, now, r, supported, tried, i);
    }
  }
}
