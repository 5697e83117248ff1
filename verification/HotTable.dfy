/**
 The hot table: session slots published under sequence locks, read without a lock
 by the receive thread, the mic worker and the audio lanes (the participants), and
 rewritten by one topology writer, who waits out every participant before touching
 a slot.  One step per atomic access; the writer and the participants interleave freely.
 */
module HotTable {
  import opened Basics
  import opened SeqLock

  /** A published word: a controller word naming a serial, the session word, or any other. */
  datatype Word =
    | Ctrl(serial: Option<nat>)
    | Session(epoch: nat)
    | Plain(value: nat)

  /** One lock-free user of the table, between or inside `enter` and `exit`. */
  datatype Participant =
    | Outside
    | Inside
    | Reading(slot: nat, read: Read<Word>)
    | Holding(slot: nat, read: Read<Word>)

  datatype Writer =
    | Idle
    | Waiting(slot: nat, next: nat, seen: Option<nat>)   // participants before `next` waited out
    | Editing(slot: nat)

  /** `live` holds the serials plugged successfully whose unplug has not started. */
  datatype State = State(
    slots: seq<Lock<Word>>,
    epochs: seq<nat>,
    parts: seq<Participant>,
    writer: Writer,
    live: set<nat>)

  predicate Names(words: seq<Word>, x: nat) {
    Ctrl(Some(x)) in words
  }

  predicate Published(s: State, x: nat) {
    exists k :: 0 <= k < |s.slots| && Names(s.slots[k].words, x)
  }

  datatype Step =
    | Enter(p: nat)
    | Exit(p: nat)
    | ReadBegin(p: nat, slot: nat)
    | ReadWord(p: nat, i: nat)
    | ReadEnd(p: nat)
    | Submit(p: nat, j: nat)
    | BeginEdit(slot: nat)
    | LookAt
    | Spin
    | WaitDone
    | StoreWord(i: nat, w: Word)
    | EndEdit
    | Plug(x: nat)
    | UnplugStart(x: nat)

  ghost predicate Init(s: State) {
    && |s.epochs| == |s.parts|
    && (forall k :: 0 <= k < |s.slots| ==>
          LockOk(s.slots[k]) && s.slots[k].version == 0 && forall x :: !Names(s.slots[k].words, x))
    && (forall p :: 0 <= p < |s.parts| ==> s.parts[p] == Outside && s.epochs[p] == 0)
    && s.writer == Idle && s.live == {}
  }

  ghost predicate ParticipantStep(s: State, t: State, step: Step)
    requires step.Enter? || step.Exit? || step.ReadBegin? || step.ReadWord? || step.ReadEnd? || step.Submit?
  {
    var p := step.p;
    && p < |s.parts| && p < |s.epochs|
    && match step
       case Enter(_) =>
         && s.parts[p] == Outside
         && t == s.(epochs := s.epochs[p := s.epochs[p] + 1], parts := s.parts[p := Inside])
       case Exit(_) =>
         && s.parts[p] != Outside
         && t == s.(epochs := s.epochs[p := s.epochs[p] + 1], parts := s.parts[p := Outside])
       case ReadBegin(_, k) =>
         && s.parts[p] != Outside && k < |s.slots|
         && t == s.(parts := s.parts[p := if Writing(s.slots[k]) then Inside
                                          else Reading(k, Begin(s.slots[k]))])
       case ReadWord(_, i) =>
         && s.parts[p].Reading? && s.parts[p].slot < |s.slots|
         && var Reading(k, r) := s.parts[p];
            && i < |s.slots[k].words|
            && t == s.(parts := s.parts[p := Reading(k, Load(s.slots[k], r, i))])
       case ReadEnd(_) =>
         && s.parts[p].Reading? && s.parts[p].slot < |s.slots|
         && var Reading(k, r) := s.parts[p];
            t == s.(parts := s.parts[p := if Accepts(s.slots[k], r) then Holding(k, r) else Inside])
       case Submit(_, j) =>   // a per-serial submit on a serial named by the snapshot
         && s.parts[p].Holding? && j < |s.parts[p].read.got|
         && s.parts[p].read.got[j].Ctrl? && s.parts[p].read.got[j].serial.Some?
         && t == s
  }

  ghost predicate WriterStep(s: State, t: State, step: Step)
    requires !(step.Enter? || step.Exit? || step.ReadBegin? || step.ReadWord? || step.ReadEnd? || step.Submit?)
  {
    match step
    case BeginEdit(k) =>
      && s.writer == Idle && k < |s.slots| && !Writing(s.slots[k])
      && t == s.(slots := s.slots[k := BeginWrite(s.slots[k])], writer := Waiting(k, 0, None))
    case LookAt =>
      && s.writer.Waiting? && s.writer.seen == None && s.writer.next < |s.epochs|
      && var Waiting(k, n, _) := s.writer;
         t == s.(writer := if s.epochs[n] % 2 == 0 then Waiting(k, n + 1, None)
                           else Waiting(k, n, Some(s.epochs[n])))
    case Spin =>
      && s.writer.Waiting? && s.writer.seen.Some? && s.writer.next < |s.epochs|
      && var Waiting(k, n, seen) := s.writer;
         t == if s.epochs[n] == seen.value then s else s.(writer := Waiting(k, n + 1, None))
    case WaitDone =>
      s.writer.Waiting? && s.writer.next == |s.epochs| && t == s.(writer := Editing(s.writer.slot))
    case StoreWord(i, w) =>   // only serials whose device is live are ever published
      && s.writer.Editing? && s.writer.slot < |s.slots|
      && var k := s.writer.slot;
         && Writing(s.slots[k]) && i < |s.slots[k].words|
         && (w.Ctrl? && w.serial.Some? ==> w.serial.value in s.live)
         && t == s.(slots := s.slots[k := Store(s.slots[k], i, w)])
    case EndEdit =>
      && s.writer.Editing? && s.writer.slot < |s.slots|
      && var k := s.writer.slot;
         Writing(s.slots[k]) && t == s.(slots := s.slots[k := EndWrite(s.slots[k])], writer := Idle)
    case Plug(x) =>
      s.writer == Idle && x !in s.live && t == s.(live := s.live + {x})
    case UnplugStart(x) =>   // only after every slot has been rewritten without the serial
      s.writer == Idle && !Published(s, x) && t == s.(live := s.live - {x})
  }

  ghost predicate Next(s: State, t: State, step: Step) {
    if step.Enter? || step.Exit? || step.ReadBegin? || step.ReadWord? || step.ReadEnd? || step.Submit?
    then ParticipantStep(s, t, step)
    else WriterStep(s, t, step)
  }

  // ---------- the invariant ----------

  predicate Reads(part: Participant) {
    part.Reading? || part.Holding?
  }

  /** The writer has yet to see participant `p` out. */
  ghost predicate NotPassed(s: State, p: nat, k: nat)
    requires p < |s.epochs|
  {
    && s.writer.Waiting? && s.writer.slot == k && s.writer.next <= p
    && (s.writer.next == p && s.writer.seen.Some? ==> s.writer.seen.value == s.epochs[p])
  }

  /** A read of slot `k` belongs to its current content, or its writer is still waiting for it. */
  ghost predicate Current(s: State, p: nat)
    requires p < |s.epochs| && p < |s.parts| && Reads(s.parts[p])
  {
    var k, r := s.parts[p].slot, s.parts[p].read;
    && k < |s.slots|
    && ReadOk(s.slots[k], r)
    && (s.slots[k].version == r.before || (s.slots[k].version == r.before + 1 && NotPassed(s, p, k)))
    && (s.parts[p].Holding? ==> Whole(s.slots[k], r) && Matches(s.slots[k].words, r))
  }

  ghost predicate WriterOk(s: State)
    requires LocksOk(s)
  {
    match s.writer
    case Idle => forall k :: 0 <= k < |s.slots| ==> !Writing(s.slots[k])
    case Waiting(k, n, _) =>
      && k < |s.slots| && n <= |s.epochs|
      && Writing(s.slots[k]) && s.slots[k].words == s.slots[k].history[s.slots[k].version / 2]
      && forall i :: 0 <= i < |s.slots| && i != k ==> !Writing(s.slots[i])
    case Editing(k) =>
      && k < |s.slots| && Writing(s.slots[k])
      && forall i :: 0 <= i < |s.slots| && i != k ==> !Writing(s.slots[i])
  }

  ghost predicate LocksOk(s: State) {
    forall k :: 0 <= k < |s.slots| ==> LockOk(s.slots[k])
  }

  ghost predicate ParticipantsOk(s: State) {
    && |s.epochs| == |s.parts|
    && (forall p :: 0 <= p < |s.parts| ==> (s.epochs[p] % 2 == 0 <==> s.parts[p] == Outside))
    && (forall p :: 0 <= p < |s.parts| && Reads(s.parts[p]) ==> Current(s, p))
  }

  ghost predicate PublishedAreLive(s: State) {
    forall k, x :: 0 <= k < |s.slots| && Names(s.slots[k].words, x) ==> x in s.live
  }

  ghost predicate Inv(s: State) {
    LocksOk(s) && WriterOk(s) && ParticipantsOk(s) && PublishedAreLive(s)
  }

  // ---------- preservation ----------

  lemma EnterExitInv(s: State, t: State, step: Step)
    requires Inv(s) && Next(s, t, step) && (step.Enter? || step.Exit?)
    ensures Inv(t)
  {
    forall q | 0 <= q < |t.parts| && Reads(t.parts[q]) ensures Current(t, q) {
      assert q != step.p && Current(s, q);
    }
  }

  /** One participant moved to a read that is current; everything else stayed. */
  lemma MoveReadInv(s: State, t: State, p: nat, part: Participant)
    requires Inv(s) && p < |s.parts| && s.parts[p] != Outside && part != Outside
    requires t == s.(parts := s.parts[p := part])
    requires Reads(part) ==> Current(t, p)
    ensures Inv(t)
  {
    forall q | 0 <= q < |t.parts| && Reads(t.parts[q]) ensures Current(t, q) {
      if q != p {
        assert Current(s, q);
      }
    }
  }

  lemma ReadStepInv(s: State, t: State, step: Step)
    requires Inv(s) && Next(s, t, step) && (step.ReadBegin? || step.ReadWord? || step.ReadEnd?)
    ensures Inv(t)
  {
    var p := step.p;
    if Reads(s.parts[p]) {
      assert Current(s, p);
    }
    if step.ReadWord? {
      LoadKeepsRead(s.slots[s.parts[p].slot], s.parts[p].read, step.i);
    } else if step.ReadEnd? && t.parts[p].Holding? {
      AcceptedIsWhole(s.slots[s.parts[p].slot], s.parts[p].read);
    }
    MoveReadInv(s, t, p, t.parts[p]);
  }

  lemma BeginEditInv(s: State, t: State, k: nat)
    requires Inv(s) && Next(s, t, BeginEdit(k))
    ensures Inv(t)
  {
    WriteSteps(s.slots[k]);
    forall q | 0 <= q < |t.parts| && Reads(t.parts[q]) ensures Current(t, q) {
      assert Current(s, q);
      if s.parts[q].slot == k {
        WriteKeepsRead(s.slots[k], t.slots[k], s.parts[q].read);
      }
    }
  }

  lemma WaitInv(s: State, t: State, step: Step)
    requires Inv(s) && Next(s, t, step) && (step.LookAt? || step.Spin? || step.WaitDone?)
    ensures Inv(t)
  {
    forall q | 0 <= q < |t.parts| && Reads(t.parts[q]) ensures Current(t, q) {
      assert Current(s, q);
    }
  }

  /** Once the wait is over no participant has a read of the slot, finished or not. */
  lemma SlotUnread(s: State, p: nat)
    requires Inv(s) && s.writer.Editing? && p < |s.parts|
    ensures Reads(s.parts[p]) ==> s.parts[p].slot != s.writer.slot
  {
    if Reads(s.parts[p]) {
      assert Current(s, p);
    }
  }

  lemma EditInv(s: State, t: State, step: Step)
    requires Inv(s) && Next(s, t, step) && (step.StoreWord? || step.EndEdit?)
    ensures Inv(t)
  {
    var k := s.writer.slot;
    WriteSteps(s.slots[k]);
    forall q | 0 <= q < |t.parts| && Reads(t.parts[q]) ensures Current(t, q) {
      SlotUnread(s, q);
      assert Current(s, q);
    }
    forall x | Names(t.slots[k].words, x) ensures x in t.live {
      assert Names(s.slots[k].words, x) || (step.StoreWord? && step.w == Ctrl(Some(x)));
    }
  }

  lemma DeviceInv(s: State, t: State, step: Step)
    requires Inv(s) && Next(s, t, step) && (step.Plug? || step.UnplugStart?)
    ensures Inv(t)
  {
    forall q | 0 <= q < |t.parts| && Reads(t.parts[q]) ensures Current(t, q) {
      assert Current(s, q);
    }
  }

  lemma NextInv(s: State, t: State, step: Step)
    requires Inv(s) && Next(s, t, step)
    ensures Inv(t)
  {
    match step
    case BeginEdit(k) => BeginEditInv(s, t, k);
    case LookAt => WaitInv(s, t, step);
    case Spin => WaitInv(s, t, step);
    case WaitDone => WaitInv(s, t, step);
    case StoreWord(_, _) => EditInv(s, t, step);
    case EndEdit => EditInv(s, t, step);
    case Plug(_) => DeviceInv(s, t, step);
    case UnplugStart(_) => DeviceInv(s, t, step);
    case Enter(_) => EnterExitInv(s, t, step);
    case Exit(_) => EnterExitInv(s, t, step);
    case ReadBegin(_, _) => ReadStepInv(s, t, step);
    case ReadWord(_, _) => ReadStepInv(s, t, step);
    case ReadEnd(_) => ReadStepInv(s, t, step);
    case Submit(_, _) =>
  }

  // ---------- what a snapshot may be used for ----------

  /** A serial named by a held snapshot is still published, so its device is live. */
  lemma LiveWhileHeld(s: State, p: nat, j: nat)
    requires Inv(s) && p < |s.parts| && s.parts[p].Holding? && j < |s.parts[p].read.got|
    requires s.parts[p].read.got[j].Ctrl? && s.parts[p].read.got[j].serial.Some?
    ensures s.parts[p].read.got[j].serial.value in s.live
    ensures Published(s, s.parts[p].read.got[j].serial.value)
  {
    assert Current(s, p);
    var k, r := s.parts[p].slot, s.parts[p].read;
    assert s.slots[k].words[r.at[j]] == r.got[j];
    assert Names(s.slots[k].words, r.got[j].serial.value);
  }

  // ---------- whole runs ----------

  ghost predicate Run(trace: seq<State>, steps: seq<Step>) {
    && |trace| == |steps| + 1
    && Init(trace[0])
    && forall i {:trigger steps[i]} :: 0 <= i < |steps| ==> Next(trace[i], trace[i + 1], steps[i])
  }

  lemma {:induction false} RunInv(trace: seq<State>, steps: seq<Step>, i: nat)
    requires Run(trace, steps) && i < |trace|
    ensures Inv(trace[i])
  {
    if i > 0 {
      RunInv(trace, steps, i - 1);
      NextInv(trace[i - 1], trace[i], steps[i - 1]);
    }
  }

  // ---------- quiescence ----------

  /** The wait has seen participant `p` out, and is under way or over. */
  predicate Passed(w: Writer, p: nat) {
    w.Editing? || (w.Waiting? && p < w.next)
  }

  predicate BusyWith(w: Writer, k: nat) {
    !w.Idle? && w.slot == k
  }

  /** Since the edit began at `a`, the participant's epoch has moved past an odd one it had then. */
  ghost predicate SeenOut(s: State, t: State, p: nat)
    requires p < |s.epochs| && p < |t.epochs|
  {
    && s.epochs[p] <= t.epochs[p]
    && (Passed(t.writer, p) ==> t.epochs[p] % 2 == 0 || s.epochs[p] < t.epochs[p])
    && (t.writer.Waiting? && t.writer.next == p && t.writer.seen.Some? ==> s.epochs[p] <= t.writer.seen.value <= t.epochs[p])
  }

  lemma SeenOutNext(s: State, t: State, u: State, step: Step, p: nat)
    requires Inv(t) && Next(t, u, step) && !t.writer.Idle? && !u.writer.Idle? && p < |s.epochs| == |t.epochs|
    requires SeenOut(s, t, p)
    ensures |u.epochs| == |t.epochs| && SeenOut(s, u, p)
  {
  }

  lemma EditStays(s: State, t: State, step: Step)
    requires Next(s, t, step) && !t.writer.Idle?
    ensures |t.epochs| == |s.epochs| && |t.parts| == |s.parts|
    ensures if s.writer.Idle? then step == BeginEdit(t.writer.slot) && t.epochs == s.epochs && t.writer == Waiting(t.writer.slot, 0, None)
            else s.writer.slot == t.writer.slot
  {
  }

  /** The edit under way began with a `BeginEdit`, and the wait since has seen its participants out. */
  lemma {:induction false} EditSince(trace: seq<State>, steps: seq<Step>, i: nat) returns (a: nat)
    requires Run(trace, steps) && i < |trace| && !trace[i].writer.Idle?
    ensures a < i && steps[a] == BeginEdit(trace[i].writer.slot)
    ensures forall b :: a < b <= i ==> BusyWith(trace[b].writer, trace[i].writer.slot)
    ensures |trace[a].epochs| == |trace[i].epochs| == |trace[i].parts|
    ensures forall p :: 0 <= p < |trace[i].epochs| ==> SeenOut(trace[a], trace[i], p)
  {
    RunInv(trace, steps, i - 1);
    EditStays(trace[i - 1], trace[i], steps[i - 1]);
    if trace[i - 1].writer.Idle? {
      a := i - 1;
    } else {
      a := EditSince(trace, steps, i - 1);
      forall p | 0 <= p < |trace[i].epochs| ensures SeenOut(trace[a], trace[i], p) {
        SeenOutNext(trace[a], trace[i - 1], trace[i], steps[i - 1], p);
      }
    }
  }

  lemma InsideStays(s: State, t: State, step: Step, p: nat)
    requires Next(s, t, step) && step != Enter(p) && p < |t.parts| && t.parts[p] != Outside
    ensures |s.parts| == |t.parts| && s.parts[p] != Outside && step != Exit(p)
    ensures |s.epochs| == |t.epochs| && (p < |t.epochs| ==> s.epochs[p] == t.epochs[p])
  {
  }

  /** A participant whose epoch has moved and who is inside entered in between, and has not left since. */
  lemma {:induction false} EnteredSince(trace: seq<State>, steps: seq<Step>, a: nat, i: nat, p: nat) returns (e: nat)
    requires Run(trace, steps) && a <= i < |trace| && p < |trace[a].epochs| && p < |trace[i].parts|
    requires p < |trace[i].epochs| && trace[a].epochs[p] < trace[i].epochs[p] && trace[i].parts[p] != Outside
    ensures a <= e < i && steps[e] == Enter(p)
    ensures forall b :: e < b < i ==> steps[b] != Exit(p)
  {
    if steps[i - 1] == Enter(p) {
      e := i - 1;
    } else {
      InsideStays(trace[i - 1], trace[i], steps[i - 1], p);
      e := EnteredSince(trace, steps, a, i - 1, p);
    }
  }

  lemma ReadStays(s: State, t: State, step: Step, p: nat)
    requires Next(s, t, step) && p < |t.parts| && Reads(t.parts[p]) && !(step.ReadBegin? && step.p == p)
    ensures |s.parts| == |t.parts| && Reads(s.parts[p]) && s.parts[p].slot == t.parts[p].slot && step != Enter(p)
  {
  }

  lemma ReadBegins(s: State, t: State, step: Step)
    requires Next(s, t, step) && step.ReadBegin? && step.p < |t.parts| && Reads(t.parts[step.p])
    ensures t.parts[step.p].slot == step.slot
  {
  }

  /** A read a participant has was begun since it entered. */
  lemma {:induction false} ReadSince(trace: seq<State>, steps: seq<Step>, e: nat, i: nat, p: nat) returns (b: nat)
    requires Run(trace, steps) && e < i < |trace| && steps[e] == Enter(p)
    requires p < |trace[i].parts| && Reads(trace[i].parts[p])
    ensures e < b < i && steps[b] == ReadBegin(p, trace[i].parts[p].slot)
  {
    assert Next(trace[i - 1], trace[i], steps[i - 1]);
    if steps[i - 1].ReadBegin? && steps[i - 1].p == p {
      ReadBegins(trace[i - 1], trace[i], steps[i - 1]);
      b := i - 1;
    } else {
      ReadStays(trace[i - 1], trace[i], steps[i - 1], p);
      b := ReadSince(trace, steps, e, i - 1, p);
    }
  }

  /**
   Quiescence: in every run, once the wait of a write is over, every participant that is
   inside entered after the write began and has not left since; so every read it has, of any
   slot and finished or not, was begun after the write began.
   */
  lemma NoEarlierSnapshot(trace: seq<State>, steps: seq<Step>, i: nat, p: nat) returns (a: nat, e: nat, b: nat)
    requires Run(trace, steps) && i < |trace| && trace[i].writer.Editing?
    requires p < |trace[i].parts| && trace[i].parts[p] != Outside
    ensures a < e < i && steps[a] == BeginEdit(trace[i].writer.slot)
    ensures forall c :: a < c <= i ==> BusyWith(trace[c].writer, trace[i].writer.slot)
    ensures steps[e] == Enter(p) && forall c :: e < c < i ==> steps[c] != Exit(p)
    ensures Reads(trace[i].parts[p]) ==>
      e < b < i && steps[b] == ReadBegin(p, trace[i].parts[p].slot) && trace[i].parts[p].slot != trace[i].writer.slot
  {
    a := EditSince(trace, steps, i);
    RunInv(trace, steps, i);
    assert SeenOut(trace[a], trace[i], p);
    e := EnteredSince(trace, steps, a, i, p);
    b := 0;
    if Reads(trace[i].parts[p]) {
      b := ReadSince(trace, steps, e, i, p);
      SlotUnread(trace[i], p);
    }
  }

  /** In every run, a serial named by a held snapshot is plugged and still published. */
  lemma HeldSerialIsLive(trace: seq<State>, steps: seq<Step>, i: nat, p: nat, x: nat)
    requires Run(trace, steps) && i < |trace| && p < |trace[i].parts| && trace[i].parts[p].Holding?
    requires Ctrl(Some(x)) in trace[i].parts[p].read.got
    ensures x in trace[i].live && Published(trace[i], x)
  {
    RunInv(trace, steps, i);
    var got := trace[i].parts[p].read.got;
    var j :| 0 <= j < |got| && got[j] == Ctrl(Some(x));
    LiveWhileHeld(trace[i], p, j);
  }

  /** In every run, when an unplug starts no participant holds a snapshot naming the serial. */
  lemma UnplugMeetsNoHolder(trace: seq<State>, steps: seq<Step>, i: nat, x: nat, p: nat)
    requires Run(trace, steps) && i < |steps| && steps[i] == UnplugStart(x) && p < |trace[i].parts|
    ensures trace[i].parts[p].Holding? ==> Ctrl(Some(x)) !in trace[i].parts[p].read.got
  {
    assert Next(trace[i], trace[i + 1], steps[i]);
    if trace[i].parts[p].Holding? && Ctrl(Some(x)) in trace[i].parts[p].read.got {
      HeldSerialIsLive(trace, steps, i, p, x);
    }
  }

  lemma {:induction false} LiveSincePlug(trace: seq<State>, steps: seq<Step>, i: nat, x: nat) returns (a: nat)
    requires Run(trace, steps) && i < |trace| && x in trace[i].live
    ensures a < i && steps[a] == Plug(x)
    ensures forall b :: a < b < i ==> steps[b] != UnplugStart(x)
  {
    if x in trace[i - 1].live {
      a := LiveSincePlug(trace, steps, i - 1, x);
      assert steps[i - 1] != UnplugStart(x);
    } else {
      a := i - 1;
    }
  }

  /**
   In every run, every per-serial submit comes after a successful plug of its serial
   and before the unplug of that serial starts.
   */
  lemma SubmitBetweenPlugAndUnplug(trace: seq<State>, steps: seq<Step>, i: nat) returns (a: nat)
    requires Run(trace, steps) && i < |steps| && steps[i].Submit?
    requires steps[i].p < |trace[i].parts| && trace[i].parts[steps[i].p].Holding?
    requires steps[i].j < |trace[i].parts[steps[i].p].read.got|
    requires trace[i].parts[steps[i].p].read.got[steps[i].j].Ctrl?
    requires trace[i].parts[steps[i].p].read.got[steps[i].j].serial.Some?
    ensures var x := trace[i].parts[steps[i].p].read.got[steps[i].j].serial.value;
            a < i && steps[a] == Plug(x) && forall b :: a < b < i ==> steps[b] != UnplugStart(x)
  {
    RunInv(trace, steps, i);
    LiveWhileHeld(trace[i], steps[i].p, steps[i].j);
    a := LiveSincePlug(trace, steps, i, trace[i].parts[steps[i].p].read.got[steps[i].j].serial.value);
  }

  /**
   In every run, the words of a held snapshot were all published together: the epoch,
   the controller words and the key of a heartbeat ack are one content the slot had.
   */
  lemma SnapshotIsOnePublication(trace: seq<State>, steps: seq<Step>, i: nat, p: nat)
    requires Run(trace, steps) && i < |trace| && p < |trace[i].parts| && trace[i].parts[p].Holding?
    ensures trace[i].parts[p].slot < |trace[i].slots|
    ensures Whole(trace[i].slots[trace[i].parts[p].slot], trace[i].parts[p].read)
  {
    RunInv(trace, steps, i);
    assert Current(trace[i], p);
  }
}
