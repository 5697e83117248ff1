/**
 Where the topology engine and the lock-free readers meet: the engine's publications are the
 contents of the hot table's slots.  What the table asks of its writer the engine keeps, and
 what a heartbeat reads off the table is an answer the engine published.
 */
module Coupling {

  import opened Basics
  import opened Pads
  import opened Commit
  import opened Publication
  import opened SeqLock
  import HotTable
  import SerialPool
  import SessionService

  // ---------- the words of a slot ----------

  function CtrlWord(pad: PadWords): HotTable.Word {
    HotTable.Ctrl(if pad.active then Some(pad.serial) else None)
  }

  /** The words a heartbeat reads: the token, the session word and the controller words. */
  function Encode(slot: HotSlot): seq<HotTable.Word> {
    [HotTable.Plain(slot.token), HotTable.Session(slot.epoch)]
    + seq(|slot.pads|, i requires 0 <= i < |slot.pads| => CtrlWord(slot.pads[i]))
  }

  lemma NamedByCtrl(slot: HotSlot, x: nat) returns (i: nat)
    requires HotTable.Names(Encode(slot), x)
    ensures i < |slot.pads| && slot.pads[i].active && slot.pads[i].serial == x
  {
    var words := Encode(slot);
    var n :| 0 <= n < |words| && words[n] == HotTable.Ctrl(Some(x));
    i := n - 2;
  }

  // ---------- what the table asks of its writer ----------

  /** The serials in use that hold a device: plugged, with no unplug begun. */
  ghost function LiveOf(w: World): set<nat> {
    set s: nat | s in w.held && s in w.use
  }

  /** The table at rest shows the engine's words and has its serials live. */
  ghost predicate Mirrors(s: HotTable.State, hot: seq<HotSlot>, w: World) {
    && |s.slots| == |hot| && s.live == LiveOf(w)
    && forall k :: 0 <= k < |hot| ==> s.slots[k].words == Encode(hot[k])
  }

  /** A plug is of a serial that is not live, and makes it live. */
  lemma PlugGuard(s: HotTable.State, hot: seq<HotSlot>, w: World, pads: seq<PadChange>, k: nat, second: bool)
    requires Mirrors(s, hot, w) && Accounted(w, pads, 0, second, []) && Pending(pads, k, 0, second) && !pads[k].plugged
    ensures pads[k].serial !in s.live
    ensures LiveOf(w.(held := w.held + {pads[k].serial})) == s.live + {pads[k].serial}
  {
    assert pads[k].serial in w.use;
  }

  /** The words published for a row name only live serials. */
  lemma StoreGuard(s: HotTable.State, hot: seq<HotSlot>, w: World, slot: nat, token: nat, words: HotSlot, x: nat)
    requires Mirrors(s, hot, w) && RowsOk(w.rows) && BoundOk(w) && slot < SESSIONS && w.rows[slot].Some?
    requires WordsOf(words, token, w.rows[slot].value) && HotTable.Names(Encode(words), x)
    ensures x in s.live
  {
    var i := NamedByCtrl(words, x);
    assert ActiveAt(w.rows, Owner(slot, i), x);
  }

  /** A retired serial is named by no slot when its unplug starts. */
  lemma UnplugGuard(s: HotTable.State, hot: seq<HotSlot>, tokens: seq<nat>, w: World, pads: seq<PadChange>, from: nat,
                    second: bool, retired: seq<nat>, j: nat)
    requires Mirrors(s, hot, w) && Accounted(w, pads, from, second, retired) && |hot| == |tokens| == SESSIONS
    requires (forall k :: 0 <= k < SESSIONS ==> SlotOk(hot[k], tokens[k], w.rows[k])) && j < |retired|
    ensures !HotTable.Published(s, retired[j])
  {
    RetiredUnnamed(w, hot, tokens, pads, from, second, retired);
    if HotTable.Published(s, retired[j]) {
      var k :| 0 <= k < |s.slots| && HotTable.Names(s.slots[k].words, retired[j]);
      var i := NamedByCtrl(hot[k], retired[j]);
      assert NamedAt(hot, Owner(k, i), retired[j]);
    }
  }

  /** The unplugs of retired serials, once settled, have taken exactly them off the live ones. */
  lemma {:induction false} SettledLive(w: World, retired: seq<nat>, unplugged: seq<bool>)
    requires |unplugged| == |retired|
    ensures var v := Settled(w, retired, unplugged); LiveOf(v) == LiveOf(w) - (set s | s in retired)
    decreases retired
  {
    if retired != [] {
      SettledLive(SettledOne(w, retired[0], unplugged[0]), retired[1..], unplugged[1..]);
      assert forall s :: s in retired <==> s == retired[0] || s in retired[1..];
    }
  }

  lemma UnplugsLive(w: World, held: set<nat>, retired: seq<nat>, unplugged: seq<bool>)
    requires UnplugsOnly(w.held, held, retired, unplugged)
    ensures LiveOf(Settled(w.(held := held), retired, unplugged)) == LiveOf(w) - (set s | s in retired)
  {
    SettledLive(w.(held := held), retired, unplugged);
  }

  // ---------- what a heartbeat reads ----------

  /** The slot's contents, after the one it started with, are these publications. */
  ghost predicate Carries(lock: Lock<HotTable.Word>, h: seq<HotSlot>) {
    && |lock.history| == |h| + 1
    && (forall n :: 0 <= n < |h| ==> lock.history[n + 1] == Encode(h[n]))
    && lock.history[0] != [] && lock.history[0][0] == HotTable.Plain(0)
  }

  /** A heartbeat's read of all its words, in order, that found the token it was sent under. */
  ghost predicate ReadsAnswer(r: Read<HotTable.Word>, token: nat) {
    && token != 0 && |r.at| == |r.got| == 2 + CONTROLLERS && (forall i :: 0 <= i < |r.at| ==> r.at[i] == i)
    && r.got[0] == HotTable.Plain(token) && r.got[1].Session?
    && forall i :: 2 <= i < |r.got| ==> r.got[i].Ctrl?
  }

  function Answer(r: Read<HotTable.Word>): Ack
    requires |r.got| == 2 + CONTROLLERS && r.got[1].Session? && forall i :: 2 <= i < |r.got| ==> r.got[i].Ctrl?
  {
    Ack(r.got[1].epoch, seq(CONTROLLERS, i requires 0 <= i < CONTROLLERS => r.got[i + 2].serial.Some?))
  }

  lemma MatchedPad(slot: HotSlot, r: Read<HotTable.Word>, token: nat, i: nat)
    requires Matches(Encode(slot), r) && ReadsAnswer(r, token) && |slot.pads| == CONTROLLERS && i < CONTROLLERS
    ensures r.got[i + 2].serial.Some? == slot.pads[i].active
  {
    assert r.at[i + 2] == i + 2;
    assert Encode(slot)[i + 2] == CtrlWord(slot.pads[i]);
  }

  lemma MatchedAnswer(slot: HotSlot, r: Read<HotTable.Word>, token: nat)
    requires Matches(Encode(slot), r) && ReadsAnswer(r, token) && |slot.pads| == CONTROLLERS
    ensures Answer(r) == AckOf(slot) && slot.token == token
  {
    assert slot.token == token && r.got[1].epoch == slot.epoch by {
      assert r.at[0] == 0 && r.at[1] == 1;
    }
    forall i | 0 <= i < CONTROLLERS ensures r.got[i + 2].serial.Some? == slot.pads[i].active {
      MatchedPad(slot, r, token, i);
    }
    assert Answer(r).active == AckOf(slot).active;
  }

  /** A participant holds a heartbeat's read of a slot that carries these publications. */
  ghost predicate Hears(s: HotTable.State, p: nat, slot: nat, h: seq<HotSlot>, token: nat) {
    && p < |s.parts| && s.parts[p].Holding? && s.parts[p].slot == slot < |s.slots|
    && Carries(s.slots[slot], h) && ReadsAnswer(s.parts[p].read, token)
  }

  /** In every run, the answer a heartbeat reads is that of one publication, made under its token. */
  lemma AnswerIsPublished(trace: seq<HotTable.State>, steps: seq<HotTable.Step>, i: nat, p: nat, slot: nat, h: seq<HotSlot>,
                          token: nat) returns (m: nat)
    requires HotTable.Run(trace, steps) && i < |trace| && Hears(trace[i], p, slot, h, token)
    requires forall n :: 0 <= n < |h| ==> |h[n].pads| == CONTROLLERS
    ensures m < |h| && h[m].token == token && AckOf(h[m]) == Answer(trace[i].parts[p].read)
  {
    var lock, r := trace[i].slots[slot], trace[i].parts[p].read;
    HotTable.SnapshotIsOnePublication(trace, steps, i, p);
    var n := r.before / 2;
    assert r.got[0] == lock.history[n][r.at[0]];
    m := n - 1;
    MatchedAnswer(h[m], r, token);
  }

  /**
   In every run over the engine's publications, what two heartbeats of a slot are answered
   with are two of its publications; if they are one session's, the slot not cleared from
   one to the other, their epochs are in the same order, and equal epochs name the same
   active pads.
   */
  lemma HeartbeatsAgree(service: SessionService.Service, trace: seq<HotTable.State>, steps: seq<HotTable.Step>, slot: nat,
                        i: nat, p: nat, a: nat, token: nat, j: nat, q: nat, b: nat, other: nat) returns (m: nat, n: nat)
    requires service.Routed() && slot < SESSIONS && HotTable.Run(trace, steps) && i < |trace| && j < |trace|
    requires a <= |service.history[slot]| && Hears(trace[i], p, slot, service.history[slot][..a], token)
    requires b <= |service.history[slot]| && Hears(trace[j], q, slot, service.history[slot][..b], other)
    ensures m < a && n < b && service.history[slot][m].token == token && service.history[slot][n].token == other
    ensures Answer(trace[i].parts[p].read) == AckOf(service.history[slot][m])
    ensures Answer(trace[j].parts[q].read) == AckOf(service.history[slot][n])
    ensures m <= n && (forall k :: m <= k <= n ==> service.history[slot][k].token != 0) ==>
      AcksInOrder(Answer(trace[i].parts[p].read), Answer(trace[j].parts[q].read))
  {
    var h := service.history[slot];
    assert HistoryOk(h, service.hot[slot], service.rows[slot]);
    m := AnswerIsPublished(trace, steps, i, p, slot, h[..a], token);
    n := AnswerIsPublished(trace, steps, j, q, slot, h[..b], other);
    if m <= n && forall k :: m <= k <= n ==> h[k].token != 0 {
      SessionAcksInOrder(h, m, n);
    }
  }
}
