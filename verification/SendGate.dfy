/**
 Sending on one session slot.  Senders share a gate taken by a try-lock and a
 one-word mailbox for the newest heartbeat ack, drained by whoever releases the
 gate.  Packet counters restart when a session write rotates the key; that write
 first waits out every lock-free sender.  One step per atomic access.

 Thread 0 is the holder of the service lock: it sends control messages and rotates
 the key, one thing at a time.  Thread `p + 1` is lock-free participant `p`, which
 sends only inside `enter` and `exit` and only after a stable read of the slot.
 */
module SendGate {

  import opened Basics

  /** Control messages and acks, each numbered as they come. */
  datatype Payload = Message(id: nat) | Ack(id: nat)

  datatype Pc =
    | NotSending
    | StoreAck                               // about to put its ack in the mailbox
    | TryGate                                // ack stored, about to try the gate
    | SpinGate(id: nat)                      // a message, waiting for the gate
    | Seal(what: Payload)                    // gate held, about to take a counter
    | Emit(what: Payload, counter: nat)      // counter taken, about to send
    | Drain                                  // gate held, about to empty the mailbox
    | FreeGate                               // gate held, about to release it
    | Recheck                                // gate released, about to look at the mailbox
    | Retry                                  // mailbox seen full, about to try the gate

  datatype KeyRead = NoRead | Pending(before: nat) | Have(before: nat, key: nat)

  datatype Rotation =
    | Off
    | Waiting(next: nat, seen: Option<nat>)
    | WaitedOut
    | KeyStored
    | CounterStored

  datatype Datagram = Datagram(key: nat, counter: nat, what: Payload)

  /**
   `key` counts key epochs; `connKey` is the key of the connection row.  The last six
   fields record what happened: messages begun and acks stored (numbered), acks handed to
   the sealer, acks replaced in the mailbox, the datagrams sent, and what was given up or
   failed to be sent.
   */
  datatype State = State(
    gen: nat,
    key: nat,
    connKey: nat,
    counter: nat,
    gate: bool,
    mailbox: Option<nat>,
    epochs: seq<nat>,
    snaps: seq<KeyRead>,
    rotation: Rotation,
    pcs: seq<Pc>,
    begun: nat,
    stored: nat,
    handed: seq<nat>,
    replaced: set<nat>,
    wire: seq<Datagram>,
    unsent: set<Payload>)
  {
    function Go(t: nat, pc: Pc): State
      requires t < |pcs|
    {
      this.(pcs := pcs[t := pc])
    }

    function KeyOf(t: nat): nat
      requires t <= |snaps| && (t > 0 ==> snaps[t - 1].Have?)
    {
      if t == 0 then connKey else snaps[t - 1].key
    }
  }

  datatype Step =
    | Enter(p: nat)
    | Exit(p: nat)
    | BeginRead(p: nat)
    | EndRead(p: nat)
    | BeginAck(t: nat)
    | BeginMessage(t: nat)
    | PutAck(t: nat)
    | TakeGate(t: nat)
    | GateBusy(t: nat)
    | TakeCounter(t: nat)
    | GiveUp(t: nat)
    | Send(t: nat)
    | SendFails(t: nat)
    | DrainMailbox(t: nat)
    | ReleaseGate(t: nat)
    | LookAgain(t: nat)
    | BeginRotation
    | LookAt
    | Spin
    | WaitDone
    | StoreKey
    | StoreCounter
    | EndRotation

  ghost predicate Init(s: State) {
    && s.gen == 0 && s.counter == 0 && !s.gate && s.mailbox == None && s.connKey == s.key
    && |s.epochs| == |s.snaps| && |s.pcs| == |s.snaps| + 1
    && (forall p :: 0 <= p < |s.epochs| ==> s.epochs[p] == 0 && s.snaps[p] == NoRead)
    && (forall t :: 0 <= t < |s.pcs| ==> s.pcs[t] == NotSending)
    && s.rotation == Off && s.begun == 0 && s.stored == 0 && s.handed == [] && s.replaced == {} && s.wire == []
    && s.unsent == {}
  }

  /** After sealing, a control message goes on to drain the mailbox, an ack to free the gate. */
  function AfterSeal(what: Payload): Pc {
    if what.Message? then Drain else FreeGate
  }

  /** About to try the gate. */
  predicate Tries(pc: Pc) {
    pc.TryGate? || pc.SpinGate? || pc.Retry?
  }

  predicate IsReadStep(step: Step) {
    step.Enter? || step.Exit? || step.BeginRead? || step.EndRead?
  }

  predicate IsRotationStep(step: Step) {
    || step.BeginRotation? || step.LookAt? || step.Spin? || step.WaitDone?
    || step.StoreKey? || step.StoreCounter? || step.EndRotation?
  }

  ghost predicate ReadStep(s: State, u: State, step: Step)
    requires IsReadStep(step)
  {
    var p := step.p;
    && p < |s.epochs| && p < |s.snaps| && p + 1 < |s.pcs|
    && match step
       case Enter(_) => s.epochs[p] % 2 == 0 && u == s.(epochs := s.epochs[p := s.epochs[p] + 1])
       case Exit(_) =>
         && s.epochs[p] % 2 == 1 && s.pcs[p + 1] == NotSending
         && u == s.(epochs := s.epochs[p := s.epochs[p] + 1], snaps := s.snaps[p := NoRead])
       case BeginRead(_) =>
         && s.epochs[p] % 2 == 1 && s.pcs[p + 1] == NotSending
         && u == s.(snaps := s.snaps[p := if s.gen % 2 == 0 then Pending(s.gen) else NoRead])
       case EndRead(_) =>   // the words of a stable read are one publication
         && s.snaps[p].Pending?
         && u == s.(snaps := s.snaps[p := if s.gen == s.snaps[p].before then Have(s.gen, s.key) else NoRead])
  }

  /** Whether thread `t` may start to send: the lock holder when not rotating, a participant after its read. */
  predicate MaySend(s: State, t: nat) {
    && t < |s.pcs| && t <= |s.snaps| && s.pcs[t] == NotSending
    && if t == 0 then s.rotation == Off else s.snaps[t - 1].Have?
  }

  ghost predicate SendStep(s: State, u: State, step: Step)
    requires !IsReadStep(step) && !IsRotationStep(step)
  {
    var t := step.t;
    && t < |s.pcs| && t <= |s.snaps|
    && match step
       case BeginAck(_) => MaySend(s, t) && u == s.Go(t, StoreAck)
       case BeginMessage(_) => MaySend(s, t) && u == s.Go(t, SpinGate(s.begun)).(begun := s.begun + 1)
       case PutAck(_) =>
         && s.pcs[t] == StoreAck
         && u == s.Go(t, TryGate).(mailbox := Some(s.stored), stored := s.stored + 1,
                                   replaced := if s.mailbox.Some? then s.replaced + {s.mailbox.value} else s.replaced)
       case TakeGate(_) =>
         && Tries(s.pcs[t]) && !s.gate
         && u == s.Go(t, if s.pcs[t].SpinGate? then Seal(Message(s.pcs[t].id)) else Drain).(gate := true)
       case GateBusy(_) =>
         && Tries(s.pcs[t]) && s.gate
         && u == if s.pcs[t].SpinGate? then s else s.Go(t, NotSending)
       case TakeCounter(_) =>
         && s.pcs[t].Seal?
         && u == s.Go(t, Emit(s.pcs[t].what, s.counter + 1)).(counter := s.counter + 1)
       case GiveUp(_) =>   // no socket, no client address or an oversized message
         && s.pcs[t].Seal?
         && u == s.Go(t, AfterSeal(s.pcs[t].what)).(unsent := s.unsent + {s.pcs[t].what})
       case Send(_) =>
         && s.pcs[t].Emit? && (t > 0 ==> s.snaps[t - 1].Have?)
         && var Emit(what, counter) := s.pcs[t];
            u == s.Go(t, AfterSeal(what)).(wire := s.wire + [Datagram(s.KeyOf(t), counter, what)])
       case SendFails(_) =>
         && s.pcs[t].Emit?
         && u == s.Go(t, AfterSeal(s.pcs[t].what)).(unsent := s.unsent + {s.pcs[t].what})
       case DrainMailbox(_) =>
         && s.pcs[t] == Drain
         && u == if s.mailbox == None then s.Go(t, FreeGate)
                 else s.Go(t, Seal(Ack(s.mailbox.value))).(mailbox := None, handed := s.handed + [s.mailbox.value])
       case ReleaseGate(_) => s.pcs[t] == FreeGate && u == s.Go(t, Recheck).(gate := false)
       case LookAgain(_) =>
         && s.pcs[t] == Recheck
         && u == s.Go(t, if s.mailbox == None then NotSending else Retry)
  }

  ghost predicate RotationStep(s: State, u: State, step: Step)
    requires IsRotationStep(step)
  {
    match step
    case BeginRotation =>
      && s.rotation == Off && |s.pcs| > 0 && s.pcs[0] == NotSending
      && u == s.(gen := s.gen + 1, connKey := s.connKey + 1, rotation := Waiting(0, None))
    case LookAt =>
      && s.rotation.Waiting? && s.rotation.seen == None && s.rotation.next < |s.epochs|
      && var n := s.rotation.next;
         u == s.(rotation := if s.epochs[n] % 2 == 0 then Waiting(n + 1, None) else Waiting(n, Some(s.epochs[n])))
    case Spin =>
      && s.rotation.Waiting? && s.rotation.seen.Some? && s.rotation.next < |s.epochs|
      && var n := s.rotation.next;
         u == if s.epochs[n] == s.rotation.seen.value then s else s.(rotation := Waiting(n + 1, None))
    case WaitDone =>
      s.rotation.Waiting? && s.rotation.next == |s.epochs| && u == s.(rotation := WaitedOut)
    case StoreKey => s.rotation == WaitedOut && u == s.(key := s.connKey, rotation := KeyStored)
    case StoreCounter => s.rotation == KeyStored && u == s.(counter := 0, rotation := CounterStored)
    case EndRotation => s.rotation == CounterStored && u == s.(gen := s.gen + 1, rotation := Off)
  }

  ghost predicate Next(s: State, u: State, step: Step) {
    if IsReadStep(step) then ReadStep(s, u, step)
    else if IsRotationStep(step) then RotationStep(s, u, step)
    else SendStep(s, u, step)
  }

  // ---------- the invariant: who may be sending ----------

  predicate Shape(s: State) {
    |s.epochs| == |s.snaps| && |s.pcs| == |s.snaps| + 1
  }

  ghost predicate NotPassed(s: State, p: nat)
    requires Shape(s) && p < |s.snaps|
  {
    && s.rotation.Waiting? && s.rotation.next <= p
    && (s.rotation.next == p && s.rotation.seen.Some? ==> s.rotation.seen.value == s.epochs[p])
  }

  ghost predicate ReaderOk(s: State, p: nat)
    requires Shape(s) && p < |s.snaps|
  {
    && (s.epochs[p] % 2 == 0 ==> s.snaps[p] == NoRead)
    && (s.pcs[p + 1] != NotSending ==> s.snaps[p].Have?)
    && (!s.snaps[p].NoRead? ==>
          && s.snaps[p].before % 2 == 0
          && (s.gen == s.snaps[p].before || (s.gen == s.snaps[p].before + 1 && NotPassed(s, p))))
    && (s.snaps[p].Have? ==> s.snaps[p].key == s.key)
  }

  ghost predicate RotationOk(s: State)
    requires Shape(s)
  {
    && (s.rotation == Off <==> s.gen % 2 == 0)
    && (s.rotation != Off ==> s.pcs[0] == NotSending)
    && (s.rotation.Waiting? ==> s.rotation.next <= |s.epochs|)
    && s.connKey == (if s.rotation.Waiting? || s.rotation == WaitedOut then s.key + 1 else s.key)
  }

  ghost predicate Quiet(s: State) {
    && Shape(s) && RotationOk(s)
    && forall p :: 0 <= p < |s.snaps| ==> ReaderOk(s, p)
  }

  lemma QuietReadNext(s: State, u: State, step: Step)
    requires Quiet(s) && Next(s, u, step) && IsReadStep(step)
    ensures Quiet(u)
  {
    forall p | 0 <= p < |u.snaps| ensures ReaderOk(u, p) {
      assert ReaderOk(s, p);
    }
  }

  lemma QuietRotationNext(s: State, u: State, step: Step)
    requires Quiet(s) && Next(s, u, step) && IsRotationStep(step)
    ensures Quiet(u)
  {
    forall p | 0 <= p < |u.snaps| ensures ReaderOk(u, p) {
      assert ReaderOk(s, p);
    }
  }

  /** A sending step moves only a thread that was allowed to send. */
  lemma SendStepFrame(s: State, u: State, step: Step)
    requires Quiet(s) && Next(s, u, step) && IsSendStep(step)
    ensures u.gen == s.gen && u.key == s.key && u.connKey == s.connKey
    ensures u.epochs == s.epochs && u.snaps == s.snaps && u.rotation == s.rotation
    ensures |u.pcs| == |s.pcs| && step.t < |s.pcs|
    ensures forall t :: 0 <= t < |s.pcs| && t != step.t ==> u.pcs[t] == s.pcs[t]
    ensures s.pcs[step.t] != NotSending || MaySend(s, step.t)
  {
  }

  lemma QuietSendNext(s: State, u: State, step: Step)
    requires Quiet(s) && Next(s, u, step) && IsSendStep(step)
    ensures Quiet(u)
  {
    SendStepFrame(s, u, step);
    forall p | 0 <= p < |u.snaps| ensures ReaderOk(u, p) {
      assert ReaderOk(s, p);
    }
  }

  lemma QuietNext(s: State, u: State, step: Step)
    requires Quiet(s) && Next(s, u, step)
    ensures Quiet(u)
  {
    if IsReadStep(step) {
      QuietReadNext(s, u, step);
    } else if IsRotationStep(step) {
      QuietRotationNext(s, u, step);
    } else {
      QuietSendNext(s, u, step);
    }
  }

  /** Once the rotation's wait is over nobody is sending, nor has a read to send on. */
  lemma NobodySendsAfterWait(s: State)
    requires Quiet(s) && s.rotation in {WaitedOut, KeyStored, CounterStored}
    ensures forall t :: 0 <= t < |s.pcs| ==> s.pcs[t] == NotSending
    ensures forall p :: 0 <= p < |s.snaps| ==> s.snaps[p] == NoRead
  {
    forall p | 0 <= p < |s.snaps| ensures s.snaps[p] == NoRead {
      assert ReaderOk(s, p);
    }
    forall t | 0 <= t < |s.pcs| ensures s.pcs[t] == NotSending {
      if t > 0 {
        assert ReaderOk(s, t - 1);
      }
    }
  }

  /** A sender always seals with the key in force. */
  lemma SenderHasCurrentKey(s: State, t: nat)
    requires Quiet(s) && t < |s.pcs| && s.pcs[t] != NotSending
    ensures (t > 0 ==> s.snaps[t - 1].Have?) && s.KeyOf(t) == s.key
    ensures s.rotation == Off || s.rotation.Waiting?
  {
    if t > 0 {
      assert ReaderOk(s, t - 1);
    }
    if s.rotation != Off && !s.rotation.Waiting? {
      NobodySendsAfterWait(s);
    }
  }

  // ---------- the invariant: the gate and the mailbox ----------

  predicate HoldsGate(pc: Pc) {
    pc.Seal? || pc.Emit? || pc.Drain? || pc.FreeGate?
  }

  /** Will look at the mailbox before returning, or fail the gate to someone who will. */
  predicate Responsible(pc: Pc) {
    HoldsGate(pc) || pc.TryGate? || pc.Recheck? || pc.Retry?
  }

  ghost predicate GateOk(s: State) {
    && (s.gate ==> exists t :: 0 <= t < |s.pcs| && HoldsGate(s.pcs[t]))
    && (forall t :: 0 <= t < |s.pcs| && HoldsGate(s.pcs[t]) ==> s.gate)
    && (forall t, w :: 0 <= t < w < |s.pcs| ==> !(HoldsGate(s.pcs[t]) && HoldsGate(s.pcs[w])))
    && (s.mailbox.Some? ==> exists t :: 0 <= t < |s.pcs| && Responsible(s.pcs[t]))
  }

  predicate IsSendStep(step: Step) {
    !IsReadStep(step) && !IsRotationStep(step)
  }

  lemma GateHeldNext(s: State, u: State, step: Step)
    requires GateOk(s) && Next(s, u, step) && IsSendStep(step)
    ensures u.gate ==> exists t :: 0 <= t < |u.pcs| && HoldsGate(u.pcs[t])
  {
    var me := step.t;
    if s.gate {
      var h :| 0 <= h < |s.pcs| && HoldsGate(s.pcs[h]);
      if h != me {
        assert HoldsGate(u.pcs[h]);
      } else if u.gate {
        assert HoldsGate(u.pcs[me]);
      }
    } else if u.gate {
      assert HoldsGate(u.pcs[me]);
    }
  }

  lemma GateHolderNext(s: State, u: State, step: Step)
    requires GateOk(s) && Next(s, u, step) && IsSendStep(step)
    ensures forall t :: 0 <= t < |u.pcs| && HoldsGate(u.pcs[t]) ==> u.gate
    ensures forall t, w :: 0 <= t < w < |u.pcs| ==> !(HoldsGate(u.pcs[t]) && HoldsGate(u.pcs[w]))
  {
    var me := step.t;
    assert HoldsGate(u.pcs[me]) ==> HoldsGate(s.pcs[me]) || !s.gate;
    forall t | 0 <= t < |u.pcs| && t != me ensures u.pcs[t] == s.pcs[t] {
    }
  }

  lemma MailboxNext(s: State, u: State, step: Step)
    requires Quiet(s) && GateOk(s) && Next(s, u, step) && IsSendStep(step) && u.mailbox.Some?
    ensures exists t :: 0 <= t < |u.pcs| && Responsible(u.pcs[t])
  {
    var me := step.t;
    if !Responsible(u.pcs[me]) {
      if step.GateBusy? {
        var h :| 0 <= h < |s.pcs| && HoldsGate(s.pcs[h]);
        assert h != me && u.pcs[h] == s.pcs[h];
      } else {
        var r :| 0 <= r < |s.pcs| && Responsible(s.pcs[r]);
        assert r != me && u.pcs[r] == s.pcs[r];
      }
    }
  }

  lemma GateNext(s: State, u: State, step: Step)
    requires Quiet(s) && GateOk(s) && Next(s, u, step)
    ensures GateOk(u)
  {
    if IsSendStep(step) {
      GateHeldNext(s, u, step);
      GateHolderNext(s, u, step);
      if u.mailbox.Some? {
        MailboxNext(s, u, step);
      }
    }
  }

  /** When no sender is active the gate is free and the mailbox empty. */
  lemma AllReturned(s: State)
    requires GateOk(s) && forall t :: 0 <= t < |s.pcs| ==> s.pcs[t] == NotSending
    ensures !s.gate && s.mailbox == None
  {
  }

  // ---------- the invariant: acks ----------

  ghost predicate AcksOk(s: State) {
    && (forall i :: 0 <= i < |s.handed| ==> s.handed[i] < s.stored && s.handed[i] !in s.replaced)
    && (forall i, j :: 0 <= i < j < |s.handed| ==> s.handed[i] < s.handed[j])
    && (forall a :: a in s.replaced ==> a + 1 < s.stored)
    && (s.mailbox.Some? ==>
          && s.mailbox.value + 1 == s.stored
          && s.mailbox.value !in s.replaced
          && forall i :: 0 <= i < |s.handed| ==> s.handed[i] < s.mailbox.value)
    && (forall a :: 0 <= a < s.stored ==> a in s.handed || a in s.replaced || s.mailbox == Some(a))
  }

  lemma AcksDrain(s: State, u: State, step: Step)
    requires AcksOk(s) && Next(s, u, step) && step.DrainMailbox?
    ensures AcksOk(u)
  {
    if s.mailbox.Some? {
      assert u.handed[|s.handed|] == s.mailbox.value;
      forall a | 0 <= a < u.stored ensures a in u.handed || a in u.replaced || u.mailbox == Some(a) {
        if a in s.handed {
          var i :| 0 <= i < |s.handed| && s.handed[i] == a;
          assert u.handed[i] == a;
        }
      }
    }
  }

  lemma AcksNext(s: State, u: State, step: Step)
    requires AcksOk(s) && Next(s, u, step)
    ensures AcksOk(u)
  {
    if step.DrainMailbox? {
      AcksDrain(s, u, step);
    } else if u.mailbox == s.mailbox && u.stored == s.stored {
      assert u.handed == s.handed && u.replaced == s.replaced;
    }
  }

  // ---------- the invariant: counters on the wire ----------

  ghost predicate WireOk(s: State) {
    && (forall i :: 0 <= i < |s.wire| ==>
          s.wire[i].key <= s.key && (s.wire[i].key == s.key ==> s.wire[i].counter <= s.counter))
    && (forall i, j :: 0 <= i < j < |s.wire| ==>
          && s.wire[i].key <= s.wire[j].key
          && (s.wire[i].key == s.wire[j].key ==> s.wire[i].counter < s.wire[j].counter))
    && (forall t :: 0 <= t < |s.pcs| && s.pcs[t].Emit? ==>
          && s.pcs[t].counter == s.counter
          && forall i :: 0 <= i < |s.wire| && s.wire[i].key == s.key ==> s.wire[i].counter < s.counter)
    && (s.rotation == KeyStored ==> forall i :: 0 <= i < |s.wire| ==> s.wire[i].key < s.key)
  }

  lemma WireEmit(s: State, u: State, step: Step)
    requires Quiet(s) && GateOk(s) && WireOk(s) && Next(s, u, step) && step.Send?
    ensures WireOk(u)
  {
    SenderHasCurrentKey(s, step.t);
    forall t | 0 <= t < |u.pcs| ensures !u.pcs[t].Emit? {
      if t != step.t {
        assert !(HoldsGate(s.pcs[step.t]) && HoldsGate(s.pcs[t]));
      }
    }
  }

  lemma WireCounter(s: State, u: State, step: Step)
    requires GateOk(s) && WireOk(s) && Next(s, u, step) && step.TakeCounter?
    ensures WireOk(u)
  {
    forall t | 0 <= t < |u.pcs| && t != step.t ensures !u.pcs[t].Emit? {
      assert !(HoldsGate(s.pcs[step.t]) && HoldsGate(s.pcs[t]));
    }
  }

  lemma WireSendNext(s: State, u: State, step: Step)
    requires WireOk(s) && Next(s, u, step) && IsSendStep(step) && !step.Send? && !step.TakeCounter?
    ensures WireOk(u)
  {
    assert u.wire == s.wire && u.key == s.key && u.counter == s.counter && u.rotation == s.rotation;
    forall t | 0 <= t < |u.pcs| && u.pcs[t].Emit? ensures s.pcs[t] == u.pcs[t] {
    }
  }

  lemma WireStore(s: State, u: State, step: Step)
    requires Quiet(s) && WireOk(s) && Next(s, u, step) && (step == StoreKey || step == StoreCounter)
    ensures WireOk(u)
  {
    NobodySendsAfterWait(s);
  }

  lemma WireUntouched(s: State, u: State, step: Step)
    requires WireOk(s) && Next(s, u, step)
    requires IsReadStep(step) || (IsRotationStep(step) && step != StoreKey && step != StoreCounter)
    ensures WireOk(u)
  {
    assert u.wire == s.wire && u.key == s.key && u.counter == s.counter && u.pcs == s.pcs;
    assert u.rotation != KeyStored || u.rotation == s.rotation;
  }

  lemma WireNext(s: State, u: State, step: Step)
    requires Quiet(s) && GateOk(s) && WireOk(s) && Next(s, u, step)
    ensures WireOk(u)
  {
    if step.Send? {
      WireEmit(s, u, step);
    } else if step.TakeCounter? {
      WireCounter(s, u, step);
    } else if IsSendStep(step) {
      WireSendNext(s, u, step);
    } else if step == StoreKey || step == StoreCounter {
      WireStore(s, u, step);
    } else {
      WireUntouched(s, u, step);
    }
  }

  // ---------- whole runs ----------

  // ---------- the invariant: what becomes of each message and ack ----------

  /** A message begun, or an ack handed over. */
  predicate Due(s: State, p: Payload) {
    match p
    case Message(id) => id < s.begun
    case Ack(id) => id in s.handed
  }

  predicate Carries(pc: Pc, p: Payload) {
    || (pc.SpinGate? && p == Message(pc.id))
    || ((pc.Seal? || pc.Emit?) && p == pc.what)
  }

  predicate InHand(s: State, p: Payload) {
    exists t :: 0 <= t < |s.pcs| && Carries(s.pcs[t], p)
  }

  function Payloads(wire: seq<Datagram>): set<Payload> {
    set i | 0 <= i < |wire| :: wire[i].what
  }

  lemma PayloadsNext(wire: seq<Datagram>, d: Datagram)
    ensures Payloads(wire + [d]) == Payloads(wire) + {d.what}
  {
    var more := wire + [d];
    forall p | p in Payloads(wire) ensures p in Payloads(more) {
      var i :| 0 <= i < |wire| && wire[i].what == p;
      assert more[i].what == p;
    }
    assert more[|wire|].what == d.what;
  }

  /** What is due was sent, came to nothing, or is in a sender's hands: exactly one of these. */
  ghost predicate PayloadOk(s: State, p: Payload) {
    && (Due(s, p) <==> p in Payloads(s.wire) || p in s.unsent || InHand(s, p))
    && !(p in Payloads(s.wire) && p in s.unsent)
    && (InHand(s, p) ==> p !in Payloads(s.wire) && p !in s.unsent)
  }

  ghost predicate PayloadsOk(s: State) {
    && (forall p :: PayloadOk(s, p))
    && (forall t, w, p :: 0 <= t < w < |s.pcs| ==> !(Carries(s.pcs[t], p) && Carries(s.pcs[w], p)))
    && (forall t, a :: 0 <= t < |s.pcs| && Carries(s.pcs[t], Ack(a)) ==> s.handed != [] && s.handed[|s.handed| - 1] == a)
    && (forall i, j :: 0 <= i < j < |s.wire| ==>
          s.wire[i].what != s.wire[j].what && (s.wire[i].what.Ack? && s.wire[j].what.Ack? ==> s.wire[i].what.id < s.wire[j].what.id))
  }

  /** A step that hands nothing on. */
  lemma PayloadsStay(s: State, u: State)
    requires PayloadsOk(s) && |u.pcs| == |s.pcs|
    requires u.begun == s.begun && u.handed == s.handed && u.wire == s.wire && u.unsent == s.unsent
    requires forall t, p :: 0 <= t < |s.pcs| ==> (Carries(u.pcs[t], p) <==> Carries(s.pcs[t], p))
    ensures PayloadsOk(u)
  {
    forall p ensures PayloadOk(u, p) {
      assert PayloadOk(s, p);
      assert InHand(u, p) <==> InHand(s, p);
    }
  }

  /** A sender that carries nothing takes up what was not due before. */
  lemma PayloadsTaken(s: State, u: State, t: nat, q: Payload)
    requires PayloadsOk(s) && t < |s.pcs| == |u.pcs| && u.pcs == s.pcs[t := u.pcs[t]]
    requires u.wire == s.wire && u.unsent == s.unsent && !Due(s, q)
    requires forall p :: Due(u, p) <==> Due(s, p) || p == q
    requires forall p :: !Carries(s.pcs[t], p)
    requires forall p :: Carries(u.pcs[t], p) <==> p == q
    requires q.Ack? ==> u.handed != [] && u.handed[|u.handed| - 1] == q.id
    requires u.handed == s.handed || forall w, a :: 0 <= w < |s.pcs| && w != t ==> !Carries(s.pcs[w], Ack(a))
    ensures PayloadsOk(u)
  {
    assert PayloadOk(s, q);
    assert Carries(u.pcs[t], q);
    forall p ensures PayloadOk(u, p) {
      assert PayloadOk(s, p);
      if InHand(s, p) {
        var w :| 0 <= w < |s.pcs| && Carries(s.pcs[w], p);
        assert Carries(u.pcs[w], p);
      }
      if InHand(u, p) {
        var w :| 0 <= w < |u.pcs| && Carries(u.pcs[w], p);
        assert w != t ==> Carries(s.pcs[w], p);
      }
    }
  }

  /** A sender is done with what it carries: it is on the wire or came to nothing. */
  lemma PayloadsDone(s: State, u: State, t: nat, q: Payload)
    requires PayloadsOk(s) && t < |s.pcs| == |u.pcs| && u.pcs == s.pcs[t := u.pcs[t]]
    requires u.begun == s.begun && u.handed == s.handed && Carries(s.pcs[t], q)
    requires forall p :: Carries(s.pcs[t], p) ==> p == q
    requires forall p :: !Carries(u.pcs[t], p)
    requires || (u.wire == s.wire && u.unsent == s.unsent + {q})
             || (u.unsent == s.unsent && |u.wire| > 0 && u.wire == s.wire + [u.wire[|u.wire| - 1]] && u.wire[|u.wire| - 1].what == q)
    ensures forall p :: PayloadOk(u, p)
    ensures forall t, w, p :: 0 <= t < w < |u.pcs| ==> !(Carries(u.pcs[t], p) && Carries(u.pcs[w], p))
    ensures forall t, a :: 0 <= t < |u.pcs| && Carries(u.pcs[t], Ack(a)) ==> u.handed != [] && u.handed[|u.handed| - 1] == a
  {
    assert PayloadOk(s, q) && InHand(s, q);
    if u.wire != s.wire {
      PayloadsNext(s.wire, u.wire[|u.wire| - 1]);
    }
    assert Payloads(u.wire) + u.unsent == Payloads(s.wire) + s.unsent + {q};
    forall p ensures PayloadOk(u, p) {
      assert PayloadOk(s, p);
      if InHand(s, p) && p != q {
        var w :| 0 <= w < |s.pcs| && Carries(s.pcs[w], p);
        assert Carries(u.pcs[w], p);
      }
      if InHand(u, p) {
        var w :| 0 <= w < |u.pcs| && Carries(u.pcs[w], p);
        assert w != t && Carries(s.pcs[w], p);
      }
    }
  }

  lemma PayloadsSent(s: State, u: State, step: Step)
    requires PayloadsOk(s) && AcksOk(s) && Next(s, u, step) && step.Send?
    ensures PayloadsOk(u)
  {
    var q := s.pcs[step.t].what;
    assert Carries(s.pcs[step.t], q);
    PayloadsDone(s, u, step.t, q);
    assert PayloadOk(s, q);
    forall i | 0 <= i < |s.wire| ensures s.wire[i].what != q && (s.wire[i].what.Ack? && q.Ack? ==> s.wire[i].what.id < q.id) {
      var p := s.wire[i].what;
      assert p in Payloads(s.wire) && PayloadOk(s, p);
      if p.Ack? && q.Ack? {
        var k :| 0 <= k < |s.handed| && s.handed[k] == p.id;
      }
    }
  }

  lemma PayloadsHanded(s: State, u: State, step: Step)
    requires PayloadsOk(s) && AcksOk(s) && GateOk(s) && Next(s, u, step) && step.DrainMailbox? && s.mailbox.Some?
    ensures PayloadsOk(u)
  {
    var q := Ack(s.mailbox.value);
    assert u.handed[|s.handed|] == q.id;
    forall p ensures Due(u, p) <==> Due(s, p) || p == q {
      if p.Ack? && p.id in s.handed {
        var i :| 0 <= i < |s.handed| && s.handed[i] == p.id;
        assert u.handed[i] == p.id;
      }
    }
    forall w, a | 0 <= w < |s.pcs| && w != step.t ensures !Carries(s.pcs[w], Ack(a)) {
      assert HoldsGate(s.pcs[step.t]);
      assert !HoldsGate(s.pcs[w]);
    }
    PayloadsTaken(s, u, step.t, q);
  }

  predicate HandsOn(s: State, step: Step) {
    step.BeginMessage? || step.Send? || step.GiveUp? || step.SendFails? || (step.DrainMailbox? && s.mailbox.Some?)
  }

  lemma PayloadsMoved(s: State, u: State, step: Step)
    requires PayloadsOk(s) && AcksOk(s) && GateOk(s) && Next(s, u, step) && HandsOn(s, step)
    ensures PayloadsOk(u)
  {
    if step.BeginMessage? {
      PayloadsTaken(s, u, step.t, Message(s.begun));
    } else if step.DrainMailbox? {
      PayloadsHanded(s, u, step);
    } else if step.Send? {
      PayloadsSent(s, u, step);
    } else {
      PayloadsDone(s, u, step.t, s.pcs[step.t].what);
    }
  }

  lemma PayloadsNextOk(s: State, u: State, step: Step)
    requires PayloadsOk(s) && AcksOk(s) && GateOk(s) && Next(s, u, step)
    ensures PayloadsOk(u)
  {
    if HandsOn(s, step) {
      PayloadsMoved(s, u, step);
    } else {
      PayloadsStay(s, u);
    }
  }

  ghost predicate Inv(s: State) {
    Quiet(s) && GateOk(s) && AcksOk(s) && WireOk(s)
  }

  ghost predicate Run(trace: seq<State>, steps: seq<Step>) {
    && |trace| == |steps| + 1
    && Init(trace[0])
    && forall i {:trigger steps[i]} :: 0 <= i < |steps| ==> Next(trace[i], trace[i + 1], steps[i])
  }

  lemma {:induction false} RunInv(trace: seq<State>, steps: seq<Step>, i: nat)
    requires Run(trace, steps) && i < |trace|
    ensures Inv(trace[i])
  {
    if i > 0 {
      RunInv(trace, steps, i - 1);
      QuietNext(trace[i - 1], trace[i], steps[i - 1]);
      GateNext(trace[i - 1], trace[i], steps[i - 1]);
      AcksNext(trace[i - 1], trace[i], steps[i - 1]);
      WireNext(trace[i - 1], trace[i], steps[i - 1]);
    }
  }

  /** When a rotation stores the key or resets the counter, nobody is sending and no ack is waiting. */
  lemma RotationMeetsNoSender(trace: seq<State>, steps: seq<Step>, i: nat)
    requires Run(trace, steps) && i < |steps| && (steps[i] == StoreKey || steps[i] == StoreCounter)
    ensures !trace[i].gate && trace[i].mailbox == None
    ensures forall t :: 0 <= t < |trace[i].pcs| ==> trace[i].pcs[t] == NotSending
  {
    RunInv(trace, steps, i);
    assert Next(trace[i], trace[i + 1], steps[i]);
    NobodySendsAfterWait(trace[i]);
    AllReturned(trace[i]);
  }

  /** Every datagram leaves under the key in force, so none leaves under a rotated key. */
  lemma SentUnderCurrentKey(trace: seq<State>, steps: seq<Step>, i: nat)
    requires Run(trace, steps) && i < |steps| && steps[i].Send?
    ensures |trace[i + 1].wire| == |trace[i].wire| + 1
    ensures trace[i + 1].wire[|trace[i].wire|].key == trace[i].key
  {
    RunInv(trace, steps, i);
    assert Next(trace[i], trace[i + 1], steps[i]);
    SenderHasCurrentKey(trace[i], steps[i].t);
  }

  /** Within one key epoch datagrams leave with strictly increasing counters. */
  lemma CountersNeverRepeat(trace: seq<State>, steps: seq<Step>, n: nat, i: nat, j: nat)
    requires Run(trace, steps) && n < |trace| && i < j < |trace[n].wire|
    ensures trace[n].wire[i].key <= trace[n].wire[j].key
    ensures trace[n].wire[i].key == trace[n].wire[j].key ==> trace[n].wire[i].counter < trace[n].wire[j].counter
  {
    RunInv(trace, steps, n);
  }

  /** A stored ack is handed to the sealer at most once, in the order stored, and never after being replaced. */
  lemma AckHandedAtMostOnce(trace: seq<State>, steps: seq<Step>, n: nat, i: nat, j: nat)
    requires Run(trace, steps) && n < |trace| && i < j < |trace[n].handed|
    ensures trace[n].handed[i] < trace[n].handed[j]
    ensures trace[n].handed[i] !in trace[n].replaced
  {
    RunInv(trace, steps, n);
  }

  /**
   When all senders have returned the mailbox is empty, every stored ack was handed
   over or replaced by a newer one, and the newest was handed over.
   */
  lemma AllReturnedAcksSettled(trace: seq<State>, steps: seq<Step>, n: nat)
    requires Run(trace, steps) && n < |trace|
    requires forall t :: 0 <= t < |trace[n].pcs| ==> trace[n].pcs[t] == NotSending
    ensures trace[n].mailbox == None && !trace[n].gate
    ensures forall a :: 0 <= a < trace[n].stored ==> a in trace[n].handed || a in trace[n].replaced
    ensures forall a :: a in trace[n].replaced ==> a + 1 < trace[n].stored
    ensures trace[n].stored > 0 ==> trace[n].stored - 1 in trace[n].handed
  {
    RunInv(trace, steps, n);
    AllReturned(trace[n]);
  }

  lemma InitPayloads(s: State)
    requires Init(s)
    ensures PayloadsOk(s)
  {
    forall p ensures PayloadOk(s, p) {
    }
  }

  lemma {:induction false} RunPayloads(trace: seq<State>, steps: seq<Step>, i: nat)
    requires Run(trace, steps) && i < |trace|
    ensures PayloadsOk(trace[i])
  {
    if i > 0 {
      RunPayloads(trace, steps, i - 1);
      RunInv(trace, steps, i - 1);
      PayloadsNextOk(trace[i - 1], trace[i], steps[i - 1]);
    } else {
      InitPayloads(trace[0]);
    }
  }

  /**
   In every run, what is on the wire are messages begun and acks handed over, none twice,
   and the acks in the order they were handed over, so in the order they were stored.
   */
  lemma WireCarriesWhatIsDue(trace: seq<State>, steps: seq<Step>, n: nat, i: nat, j: nat)
    requires Run(trace, steps) && n < |trace| && i < j < |trace[n].wire|
    ensures Due(trace[n], trace[n].wire[i].what) && Due(trace[n], trace[n].wire[j].what)
    ensures trace[n].wire[i].what != trace[n].wire[j].what
    ensures trace[n].wire[i].what.Ack? && trace[n].wire[j].what.Ack? ==> trace[n].wire[i].what.id < trace[n].wire[j].what.id
  {
    RunPayloads(trace, steps, n);
    assert PayloadOk(trace[n], trace[n].wire[i].what) && PayloadOk(trace[n], trace[n].wire[j].what);
    assert trace[n].wire[i].what in Payloads(trace[n].wire) && trace[n].wire[j].what in Payloads(trace[n].wire);
  }

  /**
   In every run, a message begun or an ack handed over is on the wire, or was given up or
   failed to be sent, or is still in some sender's hands; once all senders have returned
   it is one of the first two, and never both.
   */
  lemma NothingDueIsLost(trace: seq<State>, steps: seq<Step>, n: nat, p: Payload)
    requires Run(trace, steps) && n < |trace|
    ensures Due(trace[n], p) <==> p in Payloads(trace[n].wire) || p in trace[n].unsent || InHand(trace[n], p)
    ensures !(p in Payloads(trace[n].wire) && p in trace[n].unsent)
    ensures (forall t :: 0 <= t < |trace[n].pcs| ==> trace[n].pcs[t] == NotSending) ==> !InHand(trace[n], p)
  {
    RunPayloads(trace, steps, n);
    assert PayloadOk(trace[n], p);
  }
}
