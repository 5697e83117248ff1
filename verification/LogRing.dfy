/**
 The ring of recent log records: one writer, any number of readers, a sequence
 lock per slot.  Record number `q` goes to slot `q % |slots|`; the words of a slot
 are the record's number followed by the record.
 */
module LogRing {
  import opened Basics
  import opened SeqLock
  import opened RingCells

  type Record = seq<nat>

  datatype Entry = Entry(number: nat, record: Record)

  datatype Writer =
    | Idle
    | Storing(record: Record, next: nat)   // slot open, words before `next` stored
    | Closed                               // slot closed, count not yet advanced

  datatype Reader =
    | Away
    | Copying(first: nat, end: nat, at: nat, out: seq<Entry>)
    | InSlot(first: nat, end: nat, at: nat, out: seq<Entry>, read: Read<nat>)
    | Done(first: nat, end: nat, out: seq<Entry>)

  /** `log` records every record handed to the writer; `width` is the words of a record. */
  datatype State = State(
    width: nat,
    slots: seq<Lock<nat>>,
    published: nat,
    log: seq<Record>,
    writer: Writer,
    readers: map<nat, Reader>)

  datatype Step =
    | Open(record: Record)
    | StoreWord
    | Close
    | Advance
    | BeginCopy(r: nat, since: nat)
    | EnterSlot(r: nat)
    | LoadWord(r: nat)
    | LeaveSlot(r: nat)
    | EndCopy(r: nat)

  /** The oldest record number a ring of `n` slots still holds when `end` are published. */
  function Oldest(end: nat, n: nat): nat {
    if end > n then end - n else 0
  }

  ghost predicate Init(s: State) {
    && |s.slots| > 0 && s.published == 0 && s.log == [] && s.writer == Idle
    && (forall k :: 0 <= k < |s.slots| ==>
          LockOk(s.slots[k]) && s.slots[k].version == 0 && |s.slots[k].words| == s.width + 1)
    && forall r :: r in s.readers ==> s.readers[r] == Away
  }

  function Slot(s: State, q: nat): Lock<nat>
    requires |s.slots| > 0
  {
    s.slots[q % |s.slots|]
  }

  ghost predicate WriterStep(s: State, t: State, step: Step)
    requires |s.slots| > 0 && (IsWriterStep(step))
  {
    var k := s.published % |s.slots|;
    match step
    case Open(record) =>
      && s.writer == Idle && |record| == s.width && !Writing(s.slots[k])
      && t == s.(slots := s.slots[k := BeginWrite(s.slots[k])], log := s.log + [record],
                 writer := Storing(record, 0))
    case StoreWord =>
      && s.writer.Storing? && s.writer.next < s.width + 1
      && Writing(s.slots[k]) && s.writer.next < |s.slots[k].words|
      && var Storing(record, i) := s.writer;
         && |record| == s.width
         && var w := if i == 0 then s.published else record[i - 1];
            t == s.(slots := s.slots[k := Store(s.slots[k], i, w)], writer := Storing(record, i + 1))
    case Close =>
      && s.writer.Storing? && s.writer.next == s.width + 1 && Writing(s.slots[k])
      && t == s.(slots := s.slots[k := EndWrite(s.slots[k])], writer := Closed)
    case Advance =>
      s.writer == Closed && t == s.(published := s.published + 1, writer := Idle)
  }

  /** What the copy holds once the reader has left its slot. */
  function OutAfter(s: State, who: Reader): seq<Entry>
    requires |s.slots| > 0 && who.InSlot? && |who.read.got| > 0
  {
    if Accepts(Slot(s, who.at), who.read) && who.read.got[0] == who.at
    then who.out + [Entry(who.at, who.read.got[1..])] else who.out
  }

  ghost predicate ReaderStep(s: State, t: State, step: Step)
    requires |s.slots| > 0 && !(IsWriterStep(step))
  {
    var r := step.r;
    && r in s.readers
    && match step
       case BeginCopy(_, since) =>
         && s.readers[r].Away?
         && var first := Max(since, Oldest(s.published, |s.slots|));
            t == s.(readers := s.readers[r := Copying(first, s.published, first, [])])
       case EnterSlot(_) =>
         && s.readers[r].Copying? && s.readers[r].at < s.readers[r].end
         && var Copying(first, end, at, out) := s.readers[r];
            t == s.(readers := s.readers[r := if Writing(Slot(s, at)) then Copying(first, end, at + 1, out)
                                              else InSlot(first, end, at, out, Begin(Slot(s, at)))])
       case LoadWord(_) =>
         && s.readers[r].InSlot?
         && var InSlot(first, end, at, out, read) := s.readers[r];
            && |read.got| < s.width + 1 && |read.got| < |Slot(s, at).words|
            && t == s.(readers := s.readers[r := InSlot(first, end, at, out, Load(Slot(s, at), read, |read.got|))])
       case LeaveSlot(_) =>
         && s.readers[r].InSlot? && |s.readers[r].read.got| == s.width + 1
         && var who := s.readers[r];
            t == s.(readers := s.readers[r := Copying(who.first, who.end, who.at + 1, OutAfter(s, who))])
       case EndCopy(_) =>
         && s.readers[r].Copying? && s.readers[r].at >= s.readers[r].end
         && t == s.(readers := s.readers[r := Done(s.readers[r].first, s.readers[r].end, s.readers[r].out)])
  }

  ghost predicate Next(s: State, t: State, step: Step) {
    && |s.slots| > 0
    && if IsWriterStep(step) then WriterStep(s, t, step)
       else ReaderStep(s, t, step)
  }

  // ---------- the invariant ----------

  /** A content that is record number `content[0]`, in full. */
  ghost predicate IsRecord(log: seq<Record>, content: seq<nat>) {
    |content| > 0 && content[0] < |log| && content == [content[0]] + log[content[0]]
  }

  ghost predicate SlotOk(s: State, k: nat)
    requires k < |s.slots|
  {
    && LockOk(s.slots[k]) && |s.slots[k].words| == s.width + 1
    && forall n :: 1 <= n < |s.slots[k].history| ==> IsRecord(s.log, s.slots[k].history[n])
  }

  ghost predicate WriterOk(s: State)
    requires |s.slots| > 0
  {
    var k := s.published % |s.slots|;
    && (forall i :: 0 <= i < |s.slots| && i != k ==> !Writing(s.slots[i]))
    && match s.writer
       case Idle => !Writing(s.slots[k]) && |s.log| == s.published
       case Storing(record, next) =>
         && Writing(s.slots[k]) && |s.log| == s.published + 1 && s.log[s.published] == record
         && |record| == s.width && next <= s.width + 1 <= |s.slots[k].words|
         && (next > 0 ==> s.slots[k].words[0] == s.published)
         && forall i :: 1 <= i < next ==> s.slots[k].words[i] == record[i - 1]
       case Closed => !Writing(s.slots[k]) && |s.log| == s.published + 1 && s.slots[k].version >= 2
  }

  /** Every slot that has held a published record shows one. */
  ghost predicate Written(s: State)
    requires |s.slots| > 0
  {
    forall q :: 0 <= q < s.published ==> Slot(s, q).version >= 2
  }

  /** A copy holds records of the numbers from `first` to `end`, so far those before `at`, in order. */
  ghost predicate OutOk(log: seq<Record>, first: nat, end: nat, at: nat, out: seq<Entry>) {
    && (forall i :: 0 <= i < |out| ==>
          first <= out[i].number < at && out[i].number < end <= |log| && out[i].record == log[out[i].number])
    && (forall i, j :: 0 <= i < j < |out| ==> out[i].number < out[j].number)
  }

  ghost predicate ReaderOk(s: State, who: Reader)
    requires |s.slots| > 0
  {
    match who
    case Away => true
    case Copying(first, end, at, out) => first <= at && end <= s.published && OutOk(s.log, first, end, at, out)
    case InSlot(first, end, at, out, read) =>
      && first <= at < end <= s.published && OutOk(s.log, first, end, at, out)
      && ReadOk(Slot(s, at), read) && read.before >= 2
      && (forall j :: 0 <= j < |read.at| ==> read.at[j] == j)
    case Done(first, end, out) => end <= s.published && OutOk(s.log, first, end, end, out)
  }

  ghost predicate Inv(s: State) {
    && |s.slots| > 0
    && (forall k :: 0 <= k < |s.slots| ==> SlotOk(s, k))
    && (forall i :: 0 <= i < |s.log| ==> |s.log[i]| == s.width)
    && WriterOk(s) && Written(s)
    && forall r :: r in s.readers ==> ReaderOk(s, s.readers[r])
  }

  // ---------- preservation ----------

  /** A write step leaves every reader where it was, and its read still good. */
  lemma WriterKeepsReader(s: State, t: State, step: Step, r: nat)
    requires Inv(s) && Next(s, t, step) && (step.Open? || step.StoreWord? || step.Close?)
    requires r in s.readers
    ensures t.readers == s.readers && ReaderOk(t, t.readers[r])
  {
    assert ReaderOk(s, s.readers[r]);
    var k := s.published % |s.slots|;
    assert SlotOk(s, k);
    if s.readers[r].InSlot? && s.readers[r].at % |s.slots| == k {
      WriteKeepsRead(s.slots[k], t.slots[k], s.readers[r].read);
    }
  }

  lemma OpenInv(s: State, t: State, record: Record)
    requires Inv(s) && Next(s, t, Open(record))
    ensures Inv(t)
  {
    var k := s.published % |s.slots|;
    assert SlotOk(s, k);
    WriteSteps(s.slots[k]);
    forall i | 0 <= i < |t.slots| ensures SlotOk(t, i) {
      assert SlotOk(s, i);
    }
    forall q | 0 <= q < t.published ensures Slot(t, q).version >= 2 {
      assert Slot(s, q).version >= 2;
    }
    forall r | r in t.readers ensures ReaderOk(t, t.readers[r]) {
      WriterKeepsReader(s, t, Open(record), r);
    }
  }

  lemma StoreInv(s: State, t: State)
    requires Inv(s) && Next(s, t, StoreWord)
    ensures Inv(t)
  {
    var k := s.published % |s.slots|;
    assert SlotOk(s, k);
    WriteSteps(s.slots[k]);
    forall i | 0 <= i < |t.slots| ensures SlotOk(t, i) {
      assert SlotOk(s, i);
    }
    forall q | 0 <= q < t.published ensures Slot(t, q).version >= 2 {
      assert Slot(s, q).version >= 2;
    }
    forall r | r in t.readers ensures ReaderOk(t, t.readers[r]) {
      WriterKeepsReader(s, t, StoreWord, r);
    }
  }

  lemma CloseInv(s: State, t: State)
    requires Inv(s) && Next(s, t, Close)
    ensures Inv(t)
  {
    var k := s.published % |s.slots|;
    assert SlotOk(s, k);
    WriteSteps(s.slots[k]);
    var words := s.slots[k].words;
    assert words == [s.published] + s.log[s.published];
    assert IsRecord(s.log, words);
    forall i | 0 <= i < |t.slots| ensures SlotOk(t, i) {
      assert SlotOk(s, i);
    }
    forall q | 0 <= q < t.published ensures Slot(t, q).version >= 2 {
      assert Slot(s, q).version >= 2;
    }
    forall r | r in t.readers ensures ReaderOk(t, t.readers[r]) {
      WriterKeepsReader(s, t, Close, r);
    }
  }

  lemma AdvanceInv(s: State, t: State)
    requires Inv(s) && Next(s, t, Advance)
    ensures Inv(t)
  {
    forall i | 0 <= i < |t.slots| ensures SlotOk(t, i) && !Writing(t.slots[i]) {
      assert SlotOk(s, i);
    }
    forall q | 0 <= q < t.published ensures Slot(t, q).version >= 2 {
      assert q < s.published ==> Slot(s, q).version >= 2;
    }
    forall r | r in t.readers ensures ReaderOk(t, t.readers[r]) {
      ReaderStays(s, t, s.readers[r]);
    }
  }

  lemma ReaderStays(s: State, t: State, who: Reader)
    requires |s.slots| > 0 && ReaderOk(s, who)
    requires t.slots == s.slots && t.log == s.log && t.published >= s.published
    ensures ReaderOk(t, who)
  {
    if who.InSlot? {
      assert Slot(t, who.at) == Slot(s, who.at);
    }
  }

  /** An accepted slot read whose number is the wanted one is that very record. */
  lemma AcceptedRecord(s: State, at: nat, read: Read<nat>)
    requires Inv(s) && at < s.published
    requires ReadOk(Slot(s, at), read) && read.before >= 2 && Accepts(Slot(s, at), read)
    requires |read.got| == s.width + 1 && forall j :: 0 <= j < |read.at| ==> read.at[j] == j
    requires read.got[0] == at
    ensures at < |s.log| && read.got[1..] == s.log[at]
  {
    var k := at % |s.slots|;
    assert SlotOk(s, k);
    AcceptedIsWhole(s.slots[k], read);
    var content := s.slots[k].history[read.before / 2];
    assert read.got == content;
    assert IsRecord(s.log, content);
  }

  predicate IsWriterStep(step: Step) {
    step.Open? || step.StoreWord? || step.Close? || step.Advance?
  }

  lemma CopyStepOk(s: State, t: State, step: Step)
    requires Inv(s) && Next(s, t, step) && !IsWriterStep(step)
    requires !step.LoadWord? && !step.LeaveSlot?
    ensures ReaderOk(t, t.readers[step.r])
  {
    var who := s.readers[step.r];
    assert ReaderOk(s, who);
    if step.EnterSlot? {
      assert SlotOk(s, who.at % |s.slots|);
      assert Slot(s, who.at).version >= 2;
    }
  }

  lemma LoadStepOk(s: State, t: State, r: nat)
    requires Inv(s) && Next(s, t, LoadWord(r))
    ensures ReaderOk(t, t.readers[r])
  {
    var who := s.readers[r];
    assert ReaderOk(s, who);
    assert SlotOk(s, who.at % |s.slots|);
    LoadKeepsRead(Slot(s, who.at), who.read, |who.read.got|);
  }

  lemma OutAfterOk(s: State, who: Reader)
    requires Inv(s) && who.InSlot? && ReaderOk(s, who) && |who.read.got| == s.width + 1
    ensures OutOk(s.log, who.first, who.end, who.at + 1, OutAfter(s, who))
  {
    if Accepts(Slot(s, who.at), who.read) && who.read.got[0] == who.at {
      AcceptedRecord(s, who.at, who.read);
      OutNext(s.log, who.first, who.end, who.at, who.out, who.read.got[1..]);
    }
  }

  lemma LeaveStepOk(s: State, t: State, r: nat)
    requires Inv(s) && Next(s, t, LeaveSlot(r))
    ensures ReaderOk(t, t.readers[r])
  {
    var who := s.readers[r];
    assert ReaderOk(s, who);
    OutAfterOk(s, who);
    assert t == s.(readers := s.readers[r := Copying(who.first, who.end, who.at + 1, OutAfter(s, who))]);
  }

  lemma OutNext(log: seq<Record>, first: nat, end: nat, at: nat, out: seq<Entry>, record: Record)
    requires OutOk(log, first, end, at, out) && first <= at < end <= |log| && record == log[at]
    ensures OutOk(log, first, end, at + 1, out + [Entry(at, record)])
  {
  }

  lemma ReaderInv(s: State, t: State, step: Step)
    requires Inv(s) && Next(s, t, step) && !IsWriterStep(step)
    ensures Inv(t)
  {
    if step.LoadWord? {
      LoadStepOk(s, t, step.r);
    } else if step.LeaveSlot? {
      LeaveStepOk(s, t, step.r);
    } else {
      CopyStepOk(s, t, step);
    }
    MoveReaderInv(s, t, step.r, t.readers[step.r]);
  }

  lemma MoveReaderInv(s: State, t: State, r: nat, who: Reader)
    requires Inv(s) && t == s.(readers := s.readers[r := who]) && ReaderOk(t, who)
    ensures Inv(t)
  {
    forall i | 0 <= i < |t.slots| ensures SlotOk(t, i) {
      assert SlotOk(s, i);
    }
    forall q | 0 <= q < t.published ensures Slot(t, q).version >= 2 {
      assert Slot(s, q).version >= 2;
    }
    forall q | q in t.readers ensures ReaderOk(t, t.readers[q]) {
      if q != r {
        ReaderStays(s, t, s.readers[q]);
      }
    }
  }

  lemma NextInv(s: State, t: State, step: Step)
    requires Inv(s) && Next(s, t, step)
    ensures Inv(t)
  {
    if step.Open? {
      OpenInv(s, t, step.record);
    } else if step.StoreWord? {
      StoreInv(s, t);
    } else if step.Close? {
      CloseInv(s, t);
    } else if step.Advance? {
      AdvanceInv(s, t);
    } else {
      ReaderInv(s, t, step);
    }
  }

  ghost predicate Run(trace: seq<State>, steps: seq<Step>) {
    && |trace| == |steps| + 1
    && Init(trace[0])
    && forall i {:trigger steps[i]} :: 0 <= i < |steps| ==> Next(trace[i], trace[i + 1], steps[i])
  }

  lemma InitInv(s: State)
    requires Init(s)
    ensures Inv(s)
  {
    forall k | 0 <= k < |s.slots| ensures SlotOk(s, k) && !Writing(s.slots[k]) {
    }
  }

  lemma {:induction false} RunInv(trace: seq<State>, steps: seq<Step>, i: nat)
    requires Run(trace, steps) && i < |trace|
    ensures Inv(trace[i])
  {
    if i == 0 {
      InitInv(trace[0]);
    } else {
      RunInv(trace, steps, i - 1);
      NextInv(trace[i - 1], trace[i], steps[i - 1]);
    }
  }

  /** Where a copy began, and what it was to cover. */
  lemma {:induction false} CopyBegan(trace: seq<State>, steps: seq<Step>, n: nat, r: nat) returns (a: nat)
    requires Run(trace, steps) && n < |trace| && r in trace[n].readers && !trace[n].readers[r].Away?
    ensures a < n && steps[a].BeginCopy? && steps[a].r == r
    ensures trace[n].readers[r].end == trace[a].published
    ensures trace[n].readers[r].first == Max(steps[a].since, Oldest(trace[a].published, |trace[a].slots|))
  {
    CopyGoesOn(trace[n - 1], trace[n], steps[n - 1], r);
    if trace[n - 1].readers[r].Away? {
      a := n - 1;
    } else {
      a := CopyBegan(trace, steps, n - 1, r);
    }
  }

  lemma CopyGoesOn(s: State, t: State, step: Step, r: nat)
    requires Next(s, t, step) && r in t.readers && !t.readers[r].Away?
    ensures r in s.readers
    ensures if s.readers[r].Away?
            then && step.BeginCopy? && step.r == r && t.readers[r].end == s.published
                 && t.readers[r].first == Max(step.since, Oldest(s.published, |s.slots|))
            else t.readers[r].end == s.readers[r].end && t.readers[r].first == s.readers[r].first
  {
  }

  /**
   In every run, whatever the writer does meanwhile, a finished copy holds strictly
   increasing record numbers from the range asked for, as far as the ring held it when the
   copy began, each with exactly the record published under it.
   */
  lemma CopyIsNeverTorn(trace: seq<State>, steps: seq<Step>, n: nat, r: nat) returns (a: nat)
    requires Run(trace, steps) && n < |trace| && r in trace[n].readers && trace[n].readers[r].Done?
    ensures a < n && steps[a].BeginCopy? && steps[a].r == r && trace[n].readers[r].end == trace[a].published
    ensures var out := trace[n].readers[r].out;
            && (forall i :: 0 <= i < |out| ==>
                  && Max(steps[a].since, Oldest(trace[a].published, |trace[a].slots|)) <= out[i].number < trace[a].published
                  && out[i].number < |trace[n].log| && out[i].record == trace[n].log[out[i].number])
            && (forall i, j :: 0 <= i < j < |out| ==> out[i].number < out[j].number)
  {
    RunInv(trace, steps, n);
    assert ReaderOk(trace[n], trace[n].readers[r]);
    a := CopyBegan(trace, steps, n, r);
  }

  // ---------- what a copy beside the writer may miss ----------

  /** The slot of `q` is closed on record `q`. */
  ghost predicate Shows(s: State, q: nat)
    requires |s.slots| > 0
  {
    !Writing(Slot(s, q)) && |Slot(s, q).words| > 0 && Slot(s, q).words[0] == q
  }

  /** The record that is to take the slot of `q` next is still to come. */
  predicate Lasts(s: State, q: nat) {
    |s.log| <= q + |s.slots|
  }

  ghost predicate Shown(s: State)
    requires |s.slots| > 0
  {
    && (forall q: nat :: q < s.published && Lasts(s, q) ==> Shows(s, q))
    && (s.writer == Closed ==> Shows(s, s.published))
  }

  /** A reader in a slot that lasts sees the version it began with. */
  ghost predicate Undisturbed(s: State)
    requires |s.slots| > 0
  {
    forall r :: r in s.readers && s.readers[r].InSlot? && Lasts(s, s.readers[r].at) ==>
      Slot(s, s.readers[r].at).version == s.readers[r].read.before
  }

  /** A write step touches no slot that lasts. */
  lemma OtherSlot(s: State, t: State, step: Step, q: nat)
    requires Inv(s) && Next(s, t, step) && IsWriterStep(step) && q < s.published && Lasts(t, q)
    ensures Lasts(s, q) && Slot(t, q) == Slot(s, q)
  {
    if !step.Advance? {
      DistinctCells(|s.slots|, q, s.published);
    }
  }

  lemma ShownBefore(s: State, t: State, step: Step, q: nat)
    requires Inv(s) && Shown(s) && Next(s, t, step) && q < s.published && Lasts(t, q)
    ensures Shows(t, q)
  {
    if IsWriterStep(step) {
      OtherSlot(s, t, step, q);
    }
    assert Lasts(s, q) && Slot(t, q) == Slot(s, q);
    assert Shows(s, q);
  }

  lemma ShownOnClose(s: State, t: State)
    requires Inv(s) && Next(s, t, Close)
    ensures Shows(t, t.published)
  {
    assert SlotOk(s, s.published % |s.slots|);
  }

  lemma ShownNext(s: State, t: State, step: Step)
    requires Inv(s) && Shown(s) && Next(s, t, step)
    ensures Shown(t)
  {
    if step.Close? {
      ShownOnClose(s, t);
    }
    forall q: nat | q < t.published && Lasts(t, q) ensures Shows(t, q) {
      if q < s.published {
        ShownBefore(s, t, step, q);
      }
    }
  }

  lemma UndisturbedNext(s: State, t: State, step: Step)
    requires Inv(s) && Undisturbed(s) && Next(s, t, step)
    ensures Undisturbed(t)
  {
    if IsWriterStep(step) {
      forall r | r in t.readers && t.readers[r].InSlot? && Lasts(t, t.readers[r].at)
        ensures Slot(t, t.readers[r].at).version == t.readers[r].read.before
      {
        assert ReaderOk(s, s.readers[r]);
        OtherSlot(s, t, step, s.readers[r].at);
      }
    }
  }

  lemma {:induction false} RunShown(trace: seq<State>, steps: seq<Step>, i: nat)
    requires Run(trace, steps) && i < |trace|
    ensures Inv(trace[i]) && Shown(trace[i]) && Undisturbed(trace[i])
  {
    RunInv(trace, steps, i);
    if i > 0 {
      RunShown(trace, steps, i - 1);
      ShownNext(trace[i - 1], trace[i], steps[i - 1]);
      UndisturbedNext(trace[i - 1], trace[i], steps[i - 1]);
    }
  }

  /** How far a copy has come. */
  function Passed(who: Reader): nat
    requires !who.Away?
  {
    if who.Done? then who.end else who.at
  }

  predicate Holds(out: seq<Entry>, q: nat) {
    exists i :: 0 <= i < |out| && out[i].number == q
  }

  lemma EntersWhatLasts(s: State, t: State, r: nat)
    requires Inv(s) && Shown(s) && Next(s, t, EnterSlot(r)) && Lasts(s, s.readers[r].at)
    ensures t.readers[r].InSlot?
  {
    assert ReaderOk(s, s.readers[r]);
    assert Shows(s, s.readers[r].at);
  }

  lemma TakesWhatLasts(s: State, t: State, r: nat)
    requires Inv(s) && Shown(s) && Undisturbed(s) && Next(s, t, LeaveSlot(r)) && Lasts(s, s.readers[r].at)
    ensures Holds(t.readers[r].out, s.readers[r].at)
  {
    var who := s.readers[r];
    assert ReaderOk(s, who);
    assert Shows(s, who.at);
    assert who.read.got[0] == Slot(s, who.at).words[who.read.at[0]];
    assert t.readers[r].out[|who.out|].number == who.at;
  }

  lemma HoldsStays(s: State, t: State, step: Step, r: nat, q: nat)
    requires Next(s, t, step) && r in s.readers && !s.readers[r].Away? && Holds(s.readers[r].out, q)
    ensures r in t.readers && !t.readers[r].Away? && Holds(t.readers[r].out, q)
  {
    var i :| 0 <= i < |s.readers[r].out| && s.readers[r].out[i].number == q;
    assert t.readers[r].out[i].number == q;
  }

  lemma CopyStep(s: State, t: State, step: Step, r: nat, q: nat)
    requires Next(s, t, step) && r in t.readers && !t.readers[r].Away?
    requires t.readers[r].first <= q < Passed(t.readers[r]) && q < t.readers[r].end
    ensures r in s.readers && !s.readers[r].Away? && s.readers[r].first <= q < s.readers[r].end
    ensures q >= Passed(s.readers[r]) ==>
      (step == EnterSlot(r) || step == LeaveSlot(r)) && s.readers[r].at == q && t.readers[r].Copying?
  {
  }

  /** A copy that passes a number without taking it finds its slot opened for a later record. */
  lemma PassedHere(s: State, t: State, step: Step, r: nat)
    requires Inv(s) && Shown(s) && Undisturbed(s) && Next(s, t, step) && (step == EnterSlot(r) || step == LeaveSlot(r))
    requires t.readers[r].Copying? && !Holds(t.readers[r].out, s.readers[r].at)
    ensures !Lasts(s, s.readers[r].at)
  {
    if Lasts(s, s.readers[r].at) {
      if step == EnterSlot(r) {
        EntersWhatLasts(s, t, r);
      } else {
        TakesWhatLasts(s, t, r);
      }
    }
  }

  /** A reader has passed a number of its range without taking its record. */
  predicate Missed(s: State, r: nat, q: nat) {
    && r in s.readers && !s.readers[r].Away?
    && s.readers[r].first <= q < Passed(s.readers[r]) && q < s.readers[r].end && !Holds(s.readers[r].out, q)
  }

  /** The reader leaves the slot of a number for which a later record has been opened. */
  predicate LeavesOverwritten(s: State, step: Step, r: nat, q: nat) {
    && (step == EnterSlot(r) || step == LeaveSlot(r))
    && r in s.readers && (s.readers[r].Copying? || s.readers[r].InSlot?) && s.readers[r].at == q
    && 0 < |s.slots| && q + |s.slots| < |s.log| && (q + |s.slots|) % |s.slots| == q % |s.slots|
  }

  lemma MissedStep(s: State, t: State, step: Step, r: nat, q: nat)
    requires Inv(s) && Shown(s) && Undisturbed(s) && Next(s, t, step) && Missed(t, r, q)
    ensures Missed(s, r, q) || LeavesOverwritten(s, step, r, q)
  {
    CopyStep(s, t, step, r, q);
    if q < Passed(s.readers[r]) {
      if Holds(s.readers[r].out, q) {
        HoldsStays(s, t, step, r, q);
      }
    } else {
      PassedHere(s, t, step, r);
      SameCell(|s.slots|, q);
    }
  }

  /**
   In every run, a number of the range that a copy has passed without taking its record
   was in a slot already opened for a later record when the copy left it.
   */
  lemma {:induction false} MissedOnlyIfOverwritten(trace: seq<State>, steps: seq<Step>, n: nat, r: nat, q: nat) returns (b: nat)
    requires Run(trace, steps) && n < |trace| && Missed(trace[n], r, q)
    ensures b < n && LeavesOverwritten(trace[b], steps[b], r, q)
  {
    b := n - 1;
    RunShown(trace, steps, b);
    MissedStep(trace[b], trace[n], steps[b], r, q);
    if !LeavesOverwritten(trace[b], steps[b], r, q) {
      b := MissedOnlyIfOverwritten(trace, steps, n - 1, r, q);
    }
  }

  // ---------- the ring at rest ----------

  datatype Cell = Cell(version: nat, number: nat, record: Record)

  /** The cell of `q` holds record `q`. */
  ghost predicate Displays(cells: seq<Cell>, log: seq<Record>, q: nat)
    requires |cells| > 0 && q < |log|
  {
    cells[q % |cells|].number == q && cells[q % |cells|].record == log[q]
  }

  /** Nobody is writing, and the cells hold the whole surviving suffix. */
  ghost predicate AtRest(cells: seq<Cell>, log: seq<Record>) {
    && |cells| > 0
    && (forall k :: 0 <= k < |cells| ==> cells[k].version % 2 == 0)
    && forall q :: Oldest(|log|, |cells|) <= q < |log| ==> Displays(cells, log, q)
  }

  lemma PublishedNext(cells: seq<Cell>, log: seq<Record>, record: Record)
    requires AtRest(cells, log)
    ensures var k := |log| % |cells|;
            AtRest(cells[k := Cell(cells[k].version + 2, |log|, record)], log + [record])
  {
    var k, number := |log| % |cells|, |log|;
    var now, longer := cells[k := Cell(cells[k].version + 2, number, record)], log + [record];
    forall q | Oldest(number + 1, |cells|) <= q < number ensures Displays(now, longer, q) {
      DistinctCells(|cells|, q, number);
      assert Displays(cells, log, q);
    }
    assert Displays(now, longer, number);
  }

  /** The ring with nobody writing: what a copy then returns is the whole surviving suffix. */
  class Ring {
    const slots: array<Cell>
    var published: nat
    ghost var log: seq<Record>

    ghost predicate Valid()
      reads this, slots
    {
      |log| == published && AtRest(slots[..], log)
    }

    constructor (size: nat)
      requires size > 0
      ensures Valid() && fresh(slots) && slots.Length == size && log == []
    {
      slots := new Cell[size](_ => Cell(0, 0, []));
      published, log := 0, [];
    }

    method Publish(record: Record)
      requires Valid()
      modifies this`published, this`log, slots
      ensures Valid() && log == old(log) + [record]
    {
      var number := published;
      var k := number % slots.Length;
      ghost var was := slots[..];
      PublishedNext(was, log, record);
      slots[k] := slots[k].(version := slots[k].version + 1);
      slots[k] := slots[k].(number := number);
      slots[k] := slots[k].(record := record);
      slots[k] := slots[k].(version := slots[k].version + 1);
      assert slots[..] == was[k := Cell(was[k].version + 2, number, record)];
      published := number + 1;
      log := log + [record];
    }

    method CopySince(since: nat) returns (end: nat, out: seq<Entry>)
      requires Valid()
      ensures end == published
      ensures var first := Max(since, Oldest(end, slots.Length));
              && (first >= end ==> out == [])
              && (first < end ==> |out| == end - first
                                  && forall i :: 0 <= i < |out| ==> out[i] == Entry(first + i, log[first + i]))
    {
      out := [];
      end := published;
      var oldest := if end > slots.Length then end - slots.Length else 0;
      var first := if since < oldest then oldest else since;
      if first >= end {
        return;
      }
      var at := first;
      while at < end
        invariant first <= at <= end && |out| == at - first
        invariant forall i :: 0 <= i < |out| ==> out[i] == Entry(first + i, log[first + i])
      {
        assert Displays(slots[..], log, at);
        var cell := slots[at % slots.Length];
        var before := cell.version;
        if before % 2 == 0 && cell.number == at {
          out := out + [Entry(at, cell.record)];
        }
        at := at + 1;
      }
    }
  }
}
