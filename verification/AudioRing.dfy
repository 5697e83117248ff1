/**
 The shared-memory ring that carries PCM batches between the helper and the
 service.  Sequence numbers start at 1; batch `q` uses slot `(q - 1) % |slots|`.
 The writer advances the head first, marks the slot with sequence 0 while filling
 it, and stores the batch's own sequence last.
 */
module AudioRing {
  import opened RingCells

  /** The words of a slot: serial, sample count, then the samples. */
  datatype Slot = Slot(seqNo: nat, words: seq<int>)

  datatype Batch = Batch(serial: int, pcm: seq<int>)

  function Encoded(b: Batch): seq<int> {
    [b.serial, |b.pcm|] + b.pcm
  }

  datatype Writer =
    | Idle
    | Announced              // head advanced, slot not yet marked
    | Filling(next: nat)     // slot marked, words before `next` stored

  datatype Reader =
    | Away
    | Looking(next: nat)                    // about to load the slot's sequence
    | Copying(next: nat, got: seq<int>)     // sequence matched, copying words

  /** `batches` records what the writer was given, `taken` what the reader returned, by sequence. */
  datatype State = State(
    slots: seq<Slot>,
    head: nat,
    batches: seq<Batch>,
    writer: Writer,
    lastSeq: nat,
    reader: Reader,
    taken: seq<(nat, Batch)>)

  datatype Step =
    | Announce(batch: Batch)
    | Mark
    | StoreWord
    | Seal
    | BeginRead
    | NothingNew
    | LookMatches
    | LookDiffers
    | CopyWord
    | TakeBatch
    | Torn
    | GiveUp

  predicate Fits(s: State, b: Batch) {
    forall k :: 0 <= k < |s.slots| ==> |Encoded(b)| <= |s.slots[k].words|
  }

  ghost predicate Init(s: State) {
    && |s.slots| > 0 && s.head == 0 && s.batches == [] && s.writer == Idle
    && (forall k :: 0 <= k < |s.slots| ==> s.slots[k].seqNo == 0 && |s.slots[k].words| >= 2)
    && s.lastSeq == 0 && s.reader == Away && s.taken == []
  }

  function CellOf(s: State, q: nat): nat
    requires |s.slots| > 0 && q > 0
  {
    (q - 1) % |s.slots|
  }

  /** The next sequence to read: the one after the last, or the oldest not yet lapped. */
  function NextSeq(lastSeq: nat, head: nat, slots: nat): nat {
    if head > lastSeq + slots then head - slots + 1 else lastSeq + 1
  }

  /** How many words a reader copies once it knows the count: header, then at most the capacity. */
  function Wanted(s: State, q: nat, got: seq<int>): nat
    requires |s.slots| > 0 && q > 0
  {
    var capacity := |s.slots[CellOf(s, q)].words|;
    if |got| < 2 || got[1] < 0 then 2
    else if 2 + got[1] > capacity then (if capacity < 2 then 2 else capacity)
    else 2 + got[1]
  }

  ghost predicate WriterStep(s: State, t: State, step: Step)
    requires |s.slots| > 0 && (step.Announce? || step.Mark? || step.StoreWord? || step.Seal?)
  {
    match step
    case Announce(batch) =>   // a batch larger than a slot is refused before this
      && s.writer == Idle && Fits(s, batch)
      && t == s.(head := s.head + 1, batches := s.batches + [batch], writer := Announced)
    case Mark =>
      && s.writer == Announced && s.head > 0
      && var k := CellOf(s, s.head);
         t == s.(slots := s.slots[k := s.slots[k].(seqNo := 0)], writer := Filling(0))
    case StoreWord =>
      && s.writer.Filling? && s.head > 0 && |s.batches| == s.head
      && var k, words := CellOf(s, s.head), Encoded(s.batches[s.head - 1]);
         && s.writer.next < |words| && s.writer.next < |s.slots[k].words|
         && t == s.(slots := s.slots[k := s.slots[k].(words := s.slots[k].words[s.writer.next := words[s.writer.next]])],
                    writer := Filling(s.writer.next + 1))
    case Seal =>
      && s.writer.Filling? && s.head > 0 && |s.batches| == s.head
      && s.writer.next == |Encoded(s.batches[s.head - 1])|
      && var k := CellOf(s, s.head);
         t == s.(slots := s.slots[k := s.slots[k].(seqNo := s.head)], writer := Idle)
  }

  ghost predicate ReaderStep(s: State, t: State, step: Step)
    requires |s.slots| > 0 && !(step.Announce? || step.Mark? || step.StoreWord? || step.Seal?)
  {
    match step
    case BeginRead =>
      && s.reader == Away && s.head != s.lastSeq
      && t == s.(reader := Looking(NextSeq(s.lastSeq, s.head, |s.slots|)))
    case NothingNew => s.reader == Away && s.head == s.lastSeq && t == s
    case LookMatches =>
      && s.reader.Looking? && s.reader.next > 0 && s.slots[CellOf(s, s.reader.next)].seqNo == s.reader.next
      && t == s.(reader := Copying(s.reader.next, []))
    case LookDiffers =>
      && s.reader.Looking? && s.reader.next > 0 && s.slots[CellOf(s, s.reader.next)].seqNo != s.reader.next
      && t == s.(reader := Away)
    case CopyWord =>
      && s.reader.Copying? && s.reader.next > 0
      && var Copying(q, got) := s.reader;
         && |got| < Wanted(s, q, got) && |got| < |s.slots[CellOf(s, q)].words|
         && t == s.(reader := Copying(q, got + [s.slots[CellOf(s, q)].words[|got|]]))
    case TakeBatch =>
      && s.reader.Copying? && s.reader.next > 0
      && var Copying(q, got) := s.reader;
         && |got| == Wanted(s, q, got) && |got| >= 2 && s.slots[CellOf(s, q)].seqNo == q
         && t == s.(reader := Away, lastSeq := q, taken := s.taken + [(q, Batch(got[0], got[2..]))])
    case Torn =>   // the sequence moved under the copy: try again
      && s.reader.Copying? && s.reader.next > 0 && s.slots[CellOf(s, s.reader.next)].seqNo != s.reader.next
      && t == s.(reader := Looking(s.reader.next))
    case GiveUp => s.reader != Away && t == s.(reader := Away)
  }

  ghost predicate Next(s: State, t: State, step: Step) {
    && |s.slots| > 0
    && if step.Announce? || step.Mark? || step.StoreWord? || step.Seal? then WriterStep(s, t, step)
       else ReaderStep(s, t, step)
  }

  // ---------- the invariant ----------

  /** A slot is unmarked or holds, whole, the batch whose sequence it carries. */
  ghost predicate SlotOk(s: State, k: nat)
    requires |s.slots| > 0 && k < |s.slots|
  {
    var slot := s.slots[k];
    && |slot.words| >= 2
    && slot.seqNo <= |s.batches|
    && (slot.seqNo > 0 ==>
          && var words := Encoded(s.batches[slot.seqNo - 1]);
             |words| <= |slot.words| && slot.words[..|words|] == words)
  }

  ghost predicate WriterOk(s: State)
    requires |s.slots| > 0
  {
    && |s.batches| == s.head
    && (s.writer != Idle ==> s.head > 0 && Fits(s, s.batches[s.head - 1]))
    // the newest sequence is in no slot until the writer has sealed it
    && (s.writer != Idle ==> forall k :: 0 <= k < |s.slots| ==> s.slots[k].seqNo != s.head)
    && (s.writer.Filling? ==>
          && s.slots[CellOf(s, s.head)].seqNo == 0
          && s.writer.next <= |Encoded(s.batches[s.head - 1])|
          && s.slots[CellOf(s, s.head)].words[..s.writer.next] == Encoded(s.batches[s.head - 1])[..s.writer.next])
  }

  ghost predicate ReaderOk(s: State)
    requires |s.slots| > 0
  {
    match s.reader
    case Away => true
    case Looking(q) => s.lastSeq < q <= s.head
    case Copying(q, got) =>
      && s.lastSeq < q <= s.head
      && var slot := s.slots[CellOf(s, q)];
         // the sequence was there; once gone it never comes back
         && (q == s.head ==> s.writer == Idle)
         && |got| <= |slot.words|
         && (slot.seqNo == q ==> got == slot.words[..|got|])
  }

  ghost predicate TakenOk(s: State) {
    && s.lastSeq <= |s.batches|
    && (forall i :: 0 <= i < |s.taken| ==>
          1 <= s.taken[i].0 <= s.lastSeq && s.taken[i].1 == s.batches[s.taken[i].0 - 1])
    && (forall i, j :: 0 <= i < j < |s.taken| ==> s.taken[i].0 < s.taken[j].0)
  }

  ghost predicate Inv(s: State) {
    && |s.slots| > 0
    && (forall k :: 0 <= k < |s.slots| ==> SlotOk(s, k))
    && WriterOk(s) && ReaderOk(s) && TakenOk(s)
  }

  lemma StoreWordInv(s: State, t: State)
    requires Inv(s) && Next(s, t, StoreWord)
    ensures Inv(t)
  {
    var i, k, words := s.writer.next, CellOf(s, s.head), Encoded(s.batches[s.head - 1]);
    assert words[..i + 1] == words[..i] + [words[i]];
    assert t.slots[k].words[..i + 1] == s.slots[k].words[..i] + [words[i]];
    assert SlotOk(s, k);
    forall j | 0 <= j < |t.slots| ensures SlotOk(t, j) {
      assert SlotOk(s, j);
    }
  }

  lemma WriterInv(s: State, t: State, step: Step)
    requires Inv(s) && Next(s, t, step) && (step.Announce? || step.Mark? || step.Seal?)
    ensures Inv(t)
  {
    forall k | 0 <= k < |t.slots| ensures SlotOk(t, k) && (step.Announce? ==> t.slots[k].seqNo != t.head) {
      assert SlotOk(s, k);
    }
  }

  /** A copy confirmed by the sequence is the batch. */
  lemma CopiedBatch(s: State, q: nat, got: seq<int>)
    requires Inv(s) && s.reader == Copying(q, got) && q > 0
    requires s.slots[CellOf(s, q)].seqNo == q && |got| == Wanted(s, q, got) && |got| >= 2
    ensures q <= |s.batches| && Batch(got[0], got[2..]) == s.batches[q - 1]
  {
    var k := CellOf(s, q);
    assert SlotOk(s, k);
    var words := Encoded(s.batches[q - 1]);
    assert got[0] == s.slots[k].words[0] == words[0];
    assert got[1] == s.slots[k].words[1] == words[1];
    assert got == words;
    assert words[2..] == s.batches[q - 1].pcm;
  }

  predicate IsReaderStep(step: Step) {
    !(step.Announce? || step.Mark? || step.StoreWord? || step.Seal?)
  }

  lemma ReaderStepOk(s: State, t: State, step: Step)
    requires Inv(s) && Next(s, t, step) && IsReaderStep(step)
    ensures ReaderOk(t)
  {
    if s.reader.Looking? || s.reader.Copying? {
      assert SlotOk(s, CellOf(s, s.reader.next));
    }
  }

  lemma TakenStepOk(s: State, t: State, step: Step)
    requires Inv(s) && Next(s, t, step) && IsReaderStep(step)
    ensures TakenOk(t)
  {
    if step.TakeBatch? {
      CopiedBatch(s, s.reader.next, s.reader.got);
    }
  }

  lemma ReaderInv(s: State, t: State, step: Step)
    requires Inv(s) && Next(s, t, step) && IsReaderStep(step)
    ensures Inv(t)
  {
    ReaderStepOk(s, t, step);
    TakenStepOk(s, t, step);
    assert t.slots == s.slots && t.head == s.head && t.batches == s.batches && t.writer == s.writer;
    forall k | 0 <= k < |t.slots| ensures SlotOk(t, k) {
      assert SlotOk(s, k);
    }
  }

  ghost predicate Run(trace: seq<State>, steps: seq<Step>) {
    && |trace| == |steps| + 1
    && Init(trace[0])
    && forall i {:trigger steps[i]} :: 0 <= i < |steps| ==> Next(trace[i], trace[i + 1], steps[i])
  }

  lemma {:induction false} RunInv(trace: seq<State>, steps: seq<Step>, i: nat)
    requires Run(trace, steps) && i < |trace|
    ensures Inv(trace[i])
  {
    if i > 0 {
      RunInv(trace, steps, i - 1);
      var step := steps[i - 1];
      if step.StoreWord? {
        StoreWordInv(trace[i - 1], trace[i]);
      } else if step.Announce? || step.Mark? || step.Seal? {
        WriterInv(trace[i - 1], trace[i], step);
      } else {
        ReaderInv(trace[i - 1], trace[i], step);
      }
    }
  }

  /** In every run the batches taken are whole written batches, in increasing order, none twice. */
  lemma BatchesAreWhole(trace: seq<State>, steps: seq<Step>, n: nat)
    requires Run(trace, steps) && n < |trace|
    ensures var s := trace[n];
            && (forall i :: 0 <= i < |s.taken| ==>
                  1 <= s.taken[i].0 <= |s.batches| && s.taken[i].1 == s.batches[s.taken[i].0 - 1])
            && (forall i, j :: 0 <= i < j < |s.taken| ==> s.taken[i].0 < s.taken[j].0)
  {
    RunInv(trace, steps, n);
  }

  // ---------- what a reader misses ----------

  /** Where the read under way began; it still asks for the same sequence. */
  lemma {:induction false} ReadBegan(trace: seq<State>, steps: seq<Step>, i: nat) returns (b: nat)
    requires Run(trace, steps) && i < |trace| && trace[i].reader != Away
    ensures b < i && steps[b] == BeginRead && trace[b].lastSeq == trace[i].lastSeq
    ensures trace[b + 1].reader == Looking(trace[i].reader.next)
  {
    assert Next(trace[i - 1], trace[i], steps[i - 1]);
    if trace[i - 1].reader == Away {
      b := i - 1;
    } else {
      b := ReadBegan(trace, steps, i - 1);
    }
  }

  predicate Taken(s: State, q: nat) {
    exists k :: 0 <= k < |s.taken| && s.taken[k].0 == q
  }

  /** A number passed over at a step is one the batch taken there left behind. */
  lemma PassedOver(s: State, t: State, step: Step, q: nat)
    requires Next(s, t, step) && s.lastSeq < q <= t.lastSeq && !Taken(t, q)
    ensures step == TakeBatch && s.reader.Copying? && q < s.reader.next
  {
    assert t.taken[|s.taken|].0 == t.lastSeq;
  }

  lemma TakenStays(s: State, t: State, step: Step, q: nat)
    requires Next(s, t, step)
    ensures Taken(s, q) ==> Taken(t, q)
  {
    if k :| 0 <= k < |s.taken| && s.taken[k].0 == q {
      assert t.taken[k].0 == q;
    }
  }

  /**
   In every run, a number the reader has passed without taking its batch was lapped
   before the read that passed it began: a later batch had claimed the slot.  That
   read then asked for the oldest batch not lapped.
   */
  lemma {:induction false} MissedOnlyIfLapped(trace: seq<State>, steps: seq<Step>, n: nat, q: nat) returns (b: nat)
    requires Run(trace, steps) && n < |trace| && 0 < q <= trace[n].lastSeq && !Taken(trace[n], q)
    ensures b < n && steps[b] == BeginRead && trace[b].lastSeq < q
    ensures |trace[b].slots| > 0 && q + |trace[b].slots| <= trace[b].head
    ensures CellOf(trace[b], q + |trace[b].slots|) == CellOf(trace[b], q)
    ensures trace[b + 1].reader == Looking(trace[b].head - |trace[b].slots| + 1)
  {
    TakenStays(trace[n - 1], trace[n], steps[n - 1], q);
    if q <= trace[n - 1].lastSeq {
      b := MissedOnlyIfLapped(trace, steps, n - 1, q);
    } else {
      PassedOver(trace[n - 1], trace[n], steps[n - 1], q);
      b := ReadBegan(trace, steps, n - 1);
      assert Next(trace[b], trace[b + 1], steps[b]);
      SameCell(|trace[b].slots|, q - 1);
      assert q + |trace[b].slots| - 1 == q - 1 + |trace[b].slots|;
    }
  }
}
