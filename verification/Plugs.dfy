/** What every outcome of a change rests on: the backends asked, the buses tried, the searches made. */
module Plugs {

  import opened Basics
  import opened Pads
  import opened Commit
  import opened Convergence
  import GamepadMux
  import SerialPool

  // ---------- one change's plug ----------

  /** The event is in the log, at the given point or later. */
  ghost predicate Since(log: seq<GamepadMux.Event>, from: nat, e: GamepadMux.Event) {
    exists i :: from <= i < |log| && log[i] == e
  }

  function OrderFor(ports: seq<GamepadMux.Port>, pad: PadChange): seq<nat> {
    GamepadMux.AskOrder(ports, Identity(pad.desc.kind), pad.desc.backend)
  }

  /** Every backend that could was asked to plug the change, and refused. */
  ghost predicate RefusedByAll(ports: seq<GamepadMux.Port>, log: seq<GamepadMux.Event>, from: nat, pad: PadChange) {
    forall c :: c in OrderFor(ports, pad) ==>
      Since(log, from, GamepadMux.Plug(pad.serial, Identity(pad.desc.kind), c, false))
  }

  /** Some backend that could plugged a device of the identity asked for. */
  ghost predicate Accepted(ports: seq<GamepadMux.Port>, log: seq<GamepadMux.Event>, from: nat, pad: PadChange) {
    exists c :: c in OrderFor(ports, pad) && Since(log, from, GamepadMux.Plug(pad.serial, Identity(pad.desc.kind), c, true))
  }

  /** Every backend was asked to open its bus, and did not. */
  ghost predicate NoBusOpens(ports: seq<GamepadMux.Port>, log: seq<GamepadMux.Event>, from: nat) {
    forall c: nat :: c < |ports| ==> Since(log, from, GamepadMux.Open(c, false))
  }

  ghost predicate Attempted(ports: seq<GamepadMux.Port>, log: seq<GamepadMux.Event>, from: nat, pad: PadChange) {
    if pad.plugged then Accepted(ports, log, from, pad)
    else if pad.busDown then NoBusOpens(ports, log, from)
    else RefusedByAll(ports, log, from, pad)
  }

  lemma SinceLonger(log: seq<GamepadMux.Event>, from: nat, longer: seq<GamepadMux.Event>, earlier: nat, e: GamepadMux.Event)
    requires Since(log, from, e) && log <= longer && earlier <= from
    ensures Since(longer, earlier, e)
  {
    var i :| from <= i < |log| && log[i] == e;
    assert longer[i] == e;
  }

  /** More of the log, and an earlier start, take nothing away. */
  lemma AttemptedLonger(ports: seq<GamepadMux.Port>, log: seq<GamepadMux.Event>, from: nat, pad: PadChange,
                        longer: seq<GamepadMux.Event>, earlier: nat)
    requires Attempted(ports, log, from, pad) && log <= longer && earlier <= from
    ensures Attempted(ports, longer, earlier, pad)
  {
    forall e | Since(log, from, e) ensures Since(longer, earlier, e) {
      SinceLonger(log, from, longer, earlier, e);
    }
  }

  lemma AskedInTurn(ports: seq<GamepadMux.Port>, before: seq<GamepadMux.Event>, after: seq<GamepadMux.Event>, pad: PadChange,
                    ok: bool, n: nat)
    requires GamepadMux.InTurn(OrderFor(ports, pad), pad.serial, Identity(pad.desc.kind), before, after, ok, n)
    ensures Attempted(ports, after, |before|, pad.(plugged := ok, busDown := false))
  {
    var order := OrderFor(ports, pad);
    if ok {
      assert after[|before| + n - 1] == GamepadMux.Plug(pad.serial, Identity(pad.desc.kind), order[n - 1], true);
      assert order[n - 1] in order;
    } else {
      forall c | c in order ensures Since(after, |before|, GamepadMux.Plug(pad.serial, Identity(pad.desc.kind), c, false)) {
        var i :| 0 <= i < |order| && order[i] == c;
        assert after[|before| + i] == GamepadMux.Plug(pad.serial, Identity(pad.desc.kind), c, false);
      }
    }
  }

  lemma NoBusLater(ports: seq<GamepadMux.Port>, log: seq<GamepadMux.Event>, longer: seq<GamepadMux.Event>, from: nat)
    requires log <= longer
    ensures NoBusOpens(ports, log, from) ==> NoBusOpens(ports, longer, from)
  {
    forall e | Since(log, from, e) ensures Since(longer, from, e) {
      SinceLonger(log, from, longer, from, e);
    }
  }

  lemma AllRefused(ports: seq<GamepadMux.Port>, before: seq<GamepadMux.Event>, open: seq<bool>, after: seq<GamepadMux.Event>)
    requires |open| == |ports| && (forall c :: 0 <= c < |open| ==> !open[c])
    requires after == before + seq(|ports|, c requires 0 <= c < |open| => GamepadMux.Open(c, open[c]))
    ensures NoBusOpens(ports, after, |before|)
  {
    forall c: nat | c < |ports| ensures Since(after, |before|, GamepadMux.Open(c, false)) {
      assert after[|before| + c] == GamepadMux.Open(c, false);
    }
  }

  /** Since the given point, some backend was asked to unplug the serial and did not confirm. */
  ghost predicate Unconfirmed(log: seq<GamepadMux.Unplug>, from: nat, serial: nat) {
    exists i :: from <= i < |log| && log[i].serial == serial && !log[i].confirmed
  }

  lemma UnconfirmedLater(log: seq<GamepadMux.Unplug>, longer: seq<GamepadMux.Unplug>, from: nat, retired: seq<nat>,
                         unplugged: seq<bool>, k: nat)
    requires log <= longer && from <= |log| && k < |retired| && |unplugged| == k + 1
    requires forall j :: 0 <= j < k && !unplugged[j] ==> Unconfirmed(log, from, retired[j])
    requires !unplugged[k] ==> |longer| > |log| && longer[|log|].serial == retired[k] && !longer[|log|].confirmed
    ensures forall j :: 0 <= j <= k && !unplugged[j] ==> Unconfirmed(longer, from, retired[j])
  {
    forall j | 0 <= j <= k && !unplugged[j] ensures Unconfirmed(longer, from, retired[j]) {
      if j < k {
        var i :| from <= i < |log| && log[i].serial == retired[j] && !log[i].confirmed;
        assert longer[i] == log[i];
      }
    }
  }

  // ---------- a round of plugs ----------

  /** Every change of the round was tried; one that swaps serials found a bus up. */
  ghost predicate AllTried(pads: seq<PadChange>, second: bool, ports: seq<GamepadMux.Port>, log: seq<GamepadMux.Event>, from: nat) {
    forall k :: 0 <= k < |pads| && PlugsInRound(pads[k], second) ==>
      Attempted(ports, log, from, pads[k]) && (pads[k].kind == Replug ==> !pads[k].busDown)
  }

  lemma AllTriedLonger(pads: seq<PadChange>, second: bool, ports: seq<GamepadMux.Port>, log: seq<GamepadMux.Event>, from: nat,
                       longer: seq<GamepadMux.Event>, earlier: nat)
    requires AllTried(pads, second, ports, log, from) && log <= longer && earlier <= from
    ensures AllTried(pads, second, ports, longer, earlier)
  {
    forall k | 0 <= k < |pads| && PlugsInRound(pads[k], second) ensures Attempted(ports, longer, earlier, pads[k]) {
      AttemptedLonger(ports, log, from, pads[k], longer, earlier);
    }
  }

  /** The state of a round of plugs after k changes. */
  ghost predicate Plugging(w: World, was: World, ports: seq<GamepadMux.Port>, log: seq<GamepadMux.Event>, from: nat,
                           pads: seq<PadChange>, now: seq<PadChange>, k: nat, second: bool, open: bool) {
    && w == was.(held := w.held) && w.held <= was.held + w.use.Keys
    && Accounted(w, now, 0, second, []) && PlugRound(pads, now, second)
    && (forall j :: 0 <= j < |pads| && j >= k ==> now[j] == pads[j])
    && (forall j :: 0 <= j < |pads| && j < k && PlugsInRound(pads[j], second) ==>
          now[j].busDown == !open && Attempted(ports, log, from, now[j]))
  }

  lemma PlugTurn(w: World, v: World, was: World, ports: seq<GamepadMux.Port>, log: seq<GamepadMux.Event>,
                 longer: seq<GamepadMux.Event>, from: nat,
                 pads: seq<PadChange>, mid: seq<PadChange>, now: seq<PadChange>, k: nat, second: bool, open: bool)
    requires Plugging(w, was, ports, log, from, pads, mid, k, second, open) && k < |pads| && log <= longer
    requires Pending(pads, k, 0, second) ==> !pads[k].plugged
    requires if PlugsInRound(pads[k], second) then
               && |now| == |mid| && now == mid[k := now[k]] && now[k] == mid[k].(plugged := now[k].plugged, busDown := !open)
               && v == w.(held := w.held + if now[k].plugged then {mid[k].serial} else {})
               && Attempted(ports, longer, from, now[k])
             else v == w && now == mid
    ensures Plugging(v, was, ports, longer, from, pads, now, k + 1, second, open)
  {
    assert mid[k] == pads[k];
    if PlugsInRound(pads[k], second) {
      assert Pending(mid, k, 0, second) && Pending(pads, k, 0, second);
      Replace(w, v, mid, k, now[k], second, []);
    }
    forall j | 0 <= j < k && PlugsInRound(pads[j], second) ensures Attempted(ports, longer, from, now[j]) {
      AttemptedLonger(ports, log, from, now[j], longer, from);
    }
  }

  // ---------- the second search ----------

  /** The waiting changes of these kinds that are without a serial last searched after so many settlings. */
  ghost predicate Late(pads: seq<PadChange>, tried: Searches, settled: nat, kinds: set<Kind>) {
    forall k :: 0 <= k < |pads| && Waiter(pads[k]) && pads[k].kind in kinds && pads[k].serial == 0 ==>
      pads[k].desc.index in tried && tried[pads[k].desc.index].after >= settled
  }

  /** The same, of the changes before k of one kind more. */
  ghost predicate LateUpTo(pads: seq<PadChange>, tried: Searches, settled: nat, kinds: set<Kind>, kind: Kind, k: nat) {
    Late(pads, tried, settled, kinds) && k <= |pads| && Late(pads[..k], tried, settled, {kind})
  }

  lemma LateSkips(pads: seq<PadChange>, tried: Searches, settled: nat, kinds: set<Kind>, kind: Kind, k: nat)
    requires LateUpTo(pads, tried, settled, kinds, kind, k) && k < |pads| && !(Waiter(pads[k]) && pads[k].kind == kind)
    ensures LateUpTo(pads, tried, settled, kinds, kind, k + 1)
  {
    assert forall j :: 0 <= j < k ==> pads[..k + 1][j] == pads[..k][j];
  }

  lemma LateNext(pads: seq<PadChange>, tried: Searches, now: Searches, settled: nat, kinds: set<Kind>, kind: Kind, k: nat, serial: nat)
    requires LateUpTo(pads, tried, settled, kinds, kind, k) && k < |pads| && pads[k].kind == kind && DistinctIndices(pads)
    requires forall i :: i in tried && i != pads[k].desc.index ==> i in now && now[i] == tried[i]
    requires serial == 0 ==> pads[k].desc.index in now && now[pads[k].desc.index].after >= settled
    ensures LateUpTo(pads[k := pads[k].(serial := serial)], now, settled, kinds, kind, k + 1)
  {
    var after := pads[k := pads[k].(serial := serial)];
    forall j | 0 <= j < |pads| && j != k ensures after[j] == pads[j] && pads[j].desc.index != pads[k].desc.index {
    }
    forall j | 0 <= j < k ensures after[..k + 1][j] == pads[..k][j] && pads[..k][j].desc.index != pads[k].desc.index {
    }
  }

  lemma LateDone(pads: seq<PadChange>, tried: Searches, settled: nat, kinds: set<Kind>, kind: Kind)
    requires LateUpTo(pads, tried, settled, kinds, kind, |pads|)
    ensures Late(pads, tried, settled, kinds + {kind})
  {
    assert pads[..|pads|] == pads;
  }

  /** Plugging the round of the waiting changes does not touch their searches. */
  lemma LatePlugged(pads: seq<PadChange>, now: seq<PadChange>, tried: Searches, settled: nat, kinds: set<Kind>)
    requires Late(pads, tried, settled, kinds) && PlugRound(pads, now, true)
    ensures Late(now, tried, settled, kinds)
  {
  }

  // ---------- what each result rests on ----------

  /**
   The record of an operation: the backends, what they were asked since the point of the log
   where it began, the last searches for serials, and how often retired serials had been
   settled before it.
   */
  datatype Effort = Effort(ports: seq<GamepadMux.Port>, log: seq<GamepadMux.Event>, from: nat, tried: Searches, settled: nat)

  /** The last search for a serial found all sixteen taken, after the operation's own retired serials were settled. */
  predicate SearchedLast(e: Effort, index: nat) {
    FoundAllTaken(e.tried, index) && e.tried[index].after > e.settled
  }

  /** What a result says was tried, was tried in this operation. */
  ghost predicate Explained(d: Controller, pad: PadChange, e: Effort) {
    match pad.result
    case Ok => pad.kind == Update || (pad.serial == d.serial && Accepted(e.ports, e.log, e.from, pad))
    case PluginFail =>
      if pad.serial == 0 then pad.kind == ReplugInPlace && SearchedLast(e, pad.desc.index)
      else if pad.busDown then pad.kind == ReplugInPlace && NoBusOpens(e.ports, e.log, e.from)
      else RefusedByAll(e.ports, e.log, e.from, pad)
    case ReplugFail => pad.serial != 0 && RefusedByAll(e.ports, e.log, e.from, pad)
    case BackendUnavail => pad.serial != 0 && NoBusOpens(e.ports, e.log, e.from)
    case NoSlots => pad.kind == Add && FoundAllTaken(e.tried, pad.desc.index) && (pad.waits ==> SearchedLast(e, pad.desc.index))
    case InvalidType => true
    case InvalidIndex => true
  }

  /** An addition left without a serial that was not made to wait for one. */
  predicate RefusedAtOnce(pad: PadChange) {
    pad.kind == Add && pad.result == NoSlots && !pad.waits
  }

  /** Every result is explained; an addition refused a serial at once is in an operation that freed none. */
  ghost predicate AllExplained(b: Row, pads: seq<PadChange>, e: Effort) {
    && (forall k :: 0 <= k < |pads| && pads[k].kind != Remove ==> Explained(PadAt(b.controllers, pads[k].desc.index), pads[k], e))
    && (forall k, j :: 0 <= k < |pads| && 0 <= j < |pads| && RefusedAtOnce(pads[k]) ==>
          pads[j].kind !in {Replug, ReplugInPlace, Remove})
  }

  lemma ExplainedInOne(cs: seq<Controller>, supported: set<nat>, pad: PadChange, d: Controller, now: PadChange, e: Effort)
    requires |cs| == CONTROLLERS && PadSound(cs, supported, pad) && !pad.waits && pad.kind != Remove
    requires Committed(PadAt(cs, pad.desc.index), pad, d, now, false)
    requires pad.kind == Add && pad.serial == 0 ==> FoundAllTaken(e.tried, pad.desc.index)
    requires pad.kind == Replug ==> pad.serial != 0
    requires PlugsInRound(pad, false) ==> Attempted(e.ports, e.log, e.from, pad) && (pad.kind == Replug ==> !pad.busDown)
    ensures Explained(d, now, e) && (now.result == NoSlots ==> now.kind == Add && now.serial == 0)
  {
    assert Accepted(e.ports, e.log, e.from, pad) ==> Accepted(e.ports, e.log, e.from, now);
    assert RefusedByAll(e.ports, e.log, e.from, pad) ==> RefusedByAll(e.ports, e.log, e.from, now);
  }

  lemma ExplainedInTwo(cs: seq<Controller>, supported: set<nat>, pad: PadChange, c: Controller, mid: PadChange, again: PadChange,
                       d: Controller, now: PadChange, e: Effort)
    requires |cs| == CONTROLLERS && PadSound(cs, supported, pad) && pad.waits && pad.kind != Remove
    requires Committed(PadAt(cs, pad.desc.index), pad, c, mid, false)
    requires again == mid.(serial := again.serial, plugged := again.plugged, busDown := again.busDown)
    requires again.plugged ==> again.serial != 0
    requires Committed(c, again, d, now, true)
    requires again.serial == 0 ==> SearchedLast(e, again.desc.index)
    requires PlugsInRound(again, true) ==> Attempted(e.ports, e.log, e.from, again)
    ensures Explained(d, now, e) && now.waits
  {
    assert Accepted(e.ports, e.log, e.from, again) ==> Accepted(e.ports, e.log, e.from, now);
    assert RefusedByAll(e.ports, e.log, e.from, again) ==> RefusedByAll(e.ports, e.log, e.from, now);
  }

  /** The two rounds of an operation explain what comes of every change. */
  lemma RoundsExplained(a: Row, b: Row, c: Row, supported: set<nat>, first: seq<PadChange>, mid: seq<PadChange>,
                        again: seq<PadChange>, now: seq<PadChange>, e: Effort)
    requires |a.controllers| == CONTROLLERS == |b.controllers| && Sound(a.controllers, supported, first) && Deferred(first)
    requires RoundOk(a, b, first, mid, |first|, false) && BetweenRounds(mid, again)
    requires RoundOk(b, c, again, now, |again|, true)
    requires TriedOk(again, e.tried) && Late(again, e.tried, e.settled + 1, {Add, ReplugInPlace})
    requires AllTried(first, false, e.ports, e.log, e.from) && AllTried(again, true, e.ports, e.log, e.from)
    ensures AllExplained(c, now, e)
  {
    forall k | 0 <= k < |now| && now[k].kind != Remove
      ensures Explained(PadAt(c.controllers, now[k].desc.index), now[k], e)
    {
      OneExplained(a, b, c, supported, first, mid, again, now, e, k);
    }
    forall k, j | 0 <= k < |now| && 0 <= j < |now| && RefusedAtOnce(now[k])
      ensures now[j].kind !in {Replug, ReplugInPlace, Remove}
    {
      OneExplained(a, b, c, supported, first, mid, again, now, e, k);
      SameKind(a, b, c, first, mid, again, now, j);
    }
  }

  lemma DeferredPlugged(pads: seq<PadChange>, now: seq<PadChange>)
    requires Deferred(pads) && PlugRound(pads, now, false)
    ensures Deferred(now)
  {
    assert forall k :: 0 <= k < |now| ==> now[k].kind == pads[k].kind && now[k].serial == pads[k].serial && now[k].waits == pads[k].waits;
  }

  /** The same, with the log as each round left it. */
  lemma OperationExplained(a: Row, b: Row, c: Row, supported: set<nat>, first: seq<PadChange>, mid: seq<PadChange>,
                           again: seq<PadChange>, now: seq<PadChange>, log: seq<GamepadMux.Event>, e: Effort)
    requires |a.controllers| == CONTROLLERS == |b.controllers| && Sound(a.controllers, supported, first) && Deferred(first)
    requires RoundOk(a, b, first, mid, |first|, false) && BetweenRounds(mid, again)
    requires RoundOk(b, c, again, now, |again|, true)
    requires TriedOk(again, e.tried) && Late(again, e.tried, e.settled + 1, {Add, ReplugInPlace})
    requires AllTried(first, false, e.ports, log, e.from) && e.from <= |log| && log <= e.log
    requires AllTried(again, true, e.ports, e.log, |log|)
    ensures AllExplained(c, now, e)
  {
    AllTriedLonger(first, false, e.ports, log, e.from, e.log, e.from);
    AllTriedLonger(again, true, e.ports, e.log, |log|, e.log, e.from);
    RoundsExplained(a, b, c, supported, first, mid, again, now, e);
  }

  /** An operation up to its second commit: the first round committed, the waiting changes searched for and plugged. */
  ghost predicate Prepared(a: Row, b: Row, supported: set<nat>, first: seq<PadChange>, mid: seq<PadChange>,
                           again: seq<PadChange>, log: seq<GamepadMux.Event>, e: Effort) {
    && RowOk(a) && |b.controllers| == CONTROLLERS && Sound(a.controllers, supported, first) && Deferred(first)
    && RoundOk(a, b, first, mid, |first|, false) && BetweenRounds(mid, again)
    && TriedOk(again, e.tried) && Late(again, e.tried, e.settled + 1, {Add, ReplugInPlace})
    && AllTried(first, false, e.ports, log, e.from) && e.from <= |log| && log <= e.log
    && AllTried(again, true, e.ports, e.log, |log|)
  }

  /** What a whole operation comes to: every change has the outcome its result names, and that rests on what was tried. */
  ghost predicate Operated(a: Row, c: Row, supported: set<nat>, first: seq<PadChange>, now: seq<PadChange>, e: Effort) {
    Converged(a, c, now, supported, e.tried) && SameChanges(first, now) && AllExplained(c, now, e)
  }

  lemma OperationDone(a: Row, b: Row, c: Row, supported: set<nat>, first: seq<PadChange>, mid: seq<PadChange>,
                      again: seq<PadChange>, now: seq<PadChange>, log: seq<GamepadMux.Event>, e: Effort)
    requires Prepared(a, b, supported, first, mid, again, log, e)
    requires RoundOk(b, c, again, now, |again|, true)
    ensures Operated(a, c, supported, first, now, e)
  {
    CommitShape(a, b, first, mid);
    RoundsDone(a, b, c, supported, first, first, mid, again, now, e.tried);
    OperationExplained(a, b, c, supported, first, mid, again, now, log, e);
  }

  lemma NobodyWaited(a: Row, b: Row, supported: set<nat>, first: seq<PadChange>, mid: seq<PadChange>, log: seq<GamepadMux.Event>,
                     e: Effort)
    requires Prepared(a, b, supported, first, mid, mid, log, e)
    requires forall k :: 0 <= k < |mid| ==> !Waiter(mid[k])
    ensures Operated(a, b, supported, first, mid, e) && forall k: nat :: !Pending(mid, k, 0, true)
  {
    IdleAfterRound(a, b, supported, first, mid);
    NoneWaited(b, mid);
    OperationDone(a, b, b, supported, first, mid, mid, mid, log, e);
  }

  lemma SameKind(a: Row, b: Row, c: Row, first: seq<PadChange>, mid: seq<PadChange>, again: seq<PadChange>, now: seq<PadChange>,
                 k: nat)
    requires RoundOk(a, b, first, mid, |first|, false) && BetweenRounds(mid, again)
    requires RoundOk(b, c, again, now, |again|, true) && k < |now|
    ensures now[k].kind == first[k].kind && now[k].desc == first[k].desc && now[k].waits == first[k].waits
  {
    var i := first[k].desc.index;
    assert Committed(PadAt(a.controllers, i), first[k], PadAt(b.controllers, i), mid[k], false);
    if again[k].waits {
      assert Committed(PadAt(b.controllers, i), again[k], PadAt(c.controllers, i), now[k], true);
    }
  }

  lemma OneExplained(a: Row, b: Row, c: Row, supported: set<nat>, first: seq<PadChange>, mid: seq<PadChange>,
                     again: seq<PadChange>, now: seq<PadChange>, e: Effort, k: nat)
    requires |a.controllers| == CONTROLLERS == |b.controllers| && Sound(a.controllers, supported, first)
    requires RoundOk(a, b, first, mid, |first|, false) && BetweenRounds(mid, again)
    requires RoundOk(b, c, again, now, |again|, true)
    requires TriedOk(again, e.tried) && Late(again, e.tried, e.settled + 1, {Add, ReplugInPlace})
    requires AllTried(first, false, e.ports, e.log, e.from) && AllTried(again, true, e.ports, e.log, e.from)
    requires k < |now| && now[k].kind != Remove
    ensures Explained(PadAt(c.controllers, now[k].desc.index), now[k], e)
    ensures RefusedAtOnce(now[k]) ==> first[k].kind == Add && first[k].serial == 0 && !first[k].waits
  {
    var i := first[k].desc.index;
    assert PadSound(a.controllers, supported, first[k]);
    assert Committed(PadAt(a.controllers, i), first[k], PadAt(b.controllers, i), mid[k], false);
    SameKind(a, b, c, first, mid, again, now, k);
    if first[k].waits {
      assert Committed(PadAt(b.controllers, i), again[k], PadAt(c.controllers, i), now[k], true);
      ExplainedInTwo(a.controllers, supported, first[k], PadAt(b.controllers, i), mid[k], again[k], PadAt(c.controllers, i), now[k], e);
    } else {
      assert again[k] == mid[k] && now[k] == mid[k] && PadAt(c.controllers, i) == PadAt(b.controllers, i);
      ExplainedInOne(a.controllers, supported, first[k], PadAt(b.controllers, i), mid[k], e);
    }
  }

  /** What a declared set's results rest on. */
  ghost predicate ResultsExplained(a: Row, b: Row, descriptors: seq<Descriptor>, results: seq<PadChange>, e: Effort) {
    && (forall m :: 0 <= m < |results| ==> Explained(PadAt(b.controllers, results[m].desc.index), results[m], e))
    && ((exists m :: 0 <= m < |results| && RefusedAtOnce(results[m])) ==> FreesNone(a, descriptors, results))
  }

  /** Nothing of the session is unplugged: every active pad is named, and none is to become another device. */
  ghost predicate FreesNone(a: Row, descriptors: seq<Descriptor>, results: seq<PadChange>) {
    && (forall n :: 0 <= n < |results| ==> results[n].kind !in {Replug, ReplugInPlace})
    && (forall i: nat :: i < |a.controllers| && a.controllers[i].active ==> Named(descriptors, i))
  }

  lemma NoneFreed(a: Row, descriptors: seq<Descriptor>, desired: seq<Descriptor>, now: seq<PadChange>, r: nat)
    requires Deduped(descriptors, desired) && ShapedBy(a.controllers, desired, now, r)
    requires forall j :: 0 <= j < |now| ==> now[j].kind !in {Replug, ReplugInPlace, Remove}
    ensures FreesNone(a, descriptors, now[r..])
  {
    forall i: nat | i < |a.controllers| && a.controllers[i].active ensures Named(descriptors, i) {
      assert Named(desired, i);
      var d :| 0 <= d < |desired| && desired[d].index == i;
      LastNamed(descriptors, i, desired[d]);
    }
  }

  lemma ResultsExplainedBy(a: Row, b: Row, descriptors: seq<Descriptor>, desired: seq<Descriptor>, now: seq<PadChange>, r: nat,
                           results: seq<PadChange>, e: Effort)
    requires Deduped(descriptors, desired) && ShapedBy(a.controllers, desired, now, r) && results == Reported(now)
    requires AllExplained(b, now, e)
    ensures ResultsExplained(a, b, descriptors, results, e)
  {
    ReportedShape(now, r);
    assert forall m :: 0 <= m < |results| ==> results[m] == now[r + m] && results[m].kind != Remove;
    if m :| 0 <= m < |results| && RefusedAtOnce(results[m]) {
      assert RefusedAtOnce(now[r + m]);
      NoneFreed(a, descriptors, desired, now, r);
    }
  }

  lemma {:induction false} LastNamed(ds: seq<Descriptor>, i: nat, d: Descriptor)
    requires Last(ds, i) == Some(d)
    ensures Named(ds, i)
  {
    var n := |ds| - 1;
    if ds[n].index != i {
      LastNamed(ds[..n], i, d);
      var m :| 0 <= m < |ds[..n]| && ds[..n][m].index == i;
      assert ds[m].index == i;
    }
  }
}
