/**
 The one-frame mailbox a driver writes and the helper polls: a sequence lock whose
 words are the frame's size followed by its bytes.  The reader takes a frame only
 when the sequence is even, new, and unchanged across the copy.
 */
module FrameMailbox {
  import opened SeqLock

  const CAPACITY := 256

  datatype Reader =
    | Away
    | Sizing(read: Read<int>)                   // sequence taken, size not yet loaded
    | Copying(read: Read<int>, size: nat)       // size known, copying bytes

  /** `frames` records what `TryRead` returned, with the sequence it was read under. */
  datatype State = State(
    lock: Lock<int>,
    lastSeq: nat,
    reader: Reader,
    frames: seq<(nat, seq<int>)>)

  datatype Step =
    | OpenWrite
    | StoreWord(i: nat, w: int)
    | CloseWrite
    | Begin
    | NoNews
    | LoadSize
    | LoadByte
    | Take
    | Retry

  ghost predicate Init(s: State) {
    && LockOk(s.lock) && s.lock.version == 0 && |s.lock.words| == CAPACITY + 1
    && s.lastSeq == 0 && s.reader == Away && s.frames == []
  }

  /** The size is clamped to the mailbox's capacity. */
  function Clamp(w: int): (size: nat)
    ensures size <= CAPACITY && (0 <= w <= CAPACITY ==> size == w)
  {
    if w < 0 || w > CAPACITY then CAPACITY else w
  }

  ghost predicate Next(s: State, t: State, step: Step) {
    match step
    case OpenWrite => !Writing(s.lock) && t == s.(lock := BeginWrite(s.lock))
    case StoreWord(i, w) =>
      Writing(s.lock) && i < |s.lock.words| && t == s.(lock := Store(s.lock, i, w))
    case CloseWrite => Writing(s.lock) && t == s.(lock := EndWrite(s.lock))
    case Begin =>
      && s.reader == Away && s.lock.version != s.lastSeq && !Writing(s.lock)
      && t == s.(reader := Sizing(SeqLock.Begin(s.lock)))
    case NoNews =>   // nothing new, or a write under way
      s.reader == Away && (s.lock.version == s.lastSeq || Writing(s.lock)) && t == s
    case LoadSize =>
      && s.reader.Sizing? && |s.lock.words| > 0
      && t == s.(reader := Copying(Load(s.lock, s.reader.read, 0), Clamp(s.lock.words[0])))
    case LoadByte =>
      && s.reader.Copying? && 0 < |s.reader.read.got| <= s.reader.size && |s.reader.read.got| < |s.lock.words|
      && t == s.(reader := s.reader.(read := Load(s.lock, s.reader.read, |s.reader.read.got|)))
    case Take =>
      && s.reader.Copying? && |s.reader.read.got| == s.reader.size + 1 && Accepts(s.lock, s.reader.read)
      && t == s.(reader := Away, lastSeq := s.reader.read.before,
                 frames := s.frames + [(s.reader.read.before, s.reader.read.got[1..])])
    case Retry => s.reader != Away && t == s.(reader := Away)
  }

  /** The frame a content stands for. */
  function FrameOf(content: seq<int>): seq<int>
    requires |content| == CAPACITY + 1
  {
    content[1..1 + Clamp(content[0])]
  }

  ghost predicate ReaderOk(s: State) {
    match s.reader
    case Away => true
    case Sizing(read) => ReadOk(s.lock, read) && read.got == [] && read.before > s.lastSeq
    case Copying(read, size) =>
      && ReadOk(s.lock, read) && read.before > s.lastSeq && |read.got| >= 1
      && size == Clamp(read.got[0])
      && |read.got| <= size + 1
      && forall j :: 0 <= j < |read.at| ==> read.at[j] == j
  }

  ghost predicate FramesOk(s: State) {
    && s.lastSeq <= s.lock.version && s.lastSeq % 2 == 0
    && (forall i :: 0 <= i < |s.frames| ==>
          && s.frames[i].0 % 2 == 0 && s.frames[i].0 <= s.lastSeq
          && s.frames[i].0 / 2 < |s.lock.history|
          && |s.lock.history[s.frames[i].0 / 2]| == CAPACITY + 1
          && s.frames[i].1 == FrameOf(s.lock.history[s.frames[i].0 / 2]))
    && (forall i, j :: 0 <= i < j < |s.frames| ==> s.frames[i].0 < s.frames[j].0)
  }

  ghost predicate Inv(s: State) {
    && LockOk(s.lock) && |s.lock.words| == CAPACITY + 1
    && ReaderOk(s) && FramesOk(s)
  }

  lemma WriterInv(s: State, t: State, step: Step)
    requires Inv(s) && Next(s, t, step) && (step.OpenWrite? || step.StoreWord? || step.CloseWrite?)
    ensures Inv(t)
  {
    WriteSteps(s.lock);
    if s.reader != Away {
      WriteKeepsRead(s.lock, t.lock, s.reader.read);
    }
  }

  lemma TakenFrame(s: State, t: State)
    requires Inv(s) && Next(s, t, Take)
    ensures var (n, frame) := t.frames[|s.frames|];
            && n % 2 == 0 && n > s.lastSeq && n / 2 < |s.lock.history|
            && |s.lock.history[n / 2]| == CAPACITY + 1 && frame == FrameOf(s.lock.history[n / 2])
  {
    var read := s.reader.read;
    AcceptedIsWhole(s.lock, read);
    var content := s.lock.history[read.before / 2];
    assert read.got[0] == content[0];
    assert read.got[1..] == content[1..1 + s.reader.size];
  }

  lemma ReaderInv(s: State, t: State, step: Step)
    requires Inv(s) && Next(s, t, step) && !(step.OpenWrite? || step.StoreWord? || step.CloseWrite?)
    ensures Inv(t)
  {
    if step.LoadSize? {
      LoadKeepsRead(s.lock, s.reader.read, 0);
    } else if step.LoadByte? {
      LoadKeepsRead(s.lock, s.reader.read, |s.reader.read.got|);
    } else if step.Take? {
      TakenFrame(s, t);
    }
  }

  ghost predicate Run(trace: seq<State>, steps: seq<Step>) {
    && |trace| == |steps| + 1
    && Init(trace[0])
    && forall i {:trigger steps[i]} :: 0 <= i < |steps| ==> Next(trace[i], trace[i + 1], steps[i])
  }

  lemma {:induction false} RunInv(trace: seq<State>, steps: seq<Step>, i: nat)
    requires Run(trace, steps) && i < |trace|
    ensures Inv(trace[i])
  {
    if i > 0 {
      RunInv(trace, steps, i - 1);
      var step := steps[i - 1];
      if step.OpenWrite? || step.StoreWord? || step.CloseWrite? {
        WriterInv(trace[i - 1], trace[i], step);
      } else {
        ReaderInv(trace[i - 1], trace[i], step);
      }
    }
  }

  /** In every run each returned frame is one whole written frame, each newer than the one before. */
  lemma FramesAreWhole(trace: seq<State>, steps: seq<Step>, n: nat)
    requires Run(trace, steps) && n < |trace|
    ensures FramesOk(trace[n])
  {
    RunInv(trace, steps, n);
  }

  /** In every run a frame is taken only while it is the last one written. */
  lemma TakesTheLatest(trace: seq<State>, steps: seq<Step>, i: nat)
    requires Run(trace, steps) && i < |steps| && steps[i] == Take
    ensures !Writing(trace[i].lock) && |trace[i].lock.words| == CAPACITY + 1
    ensures trace[i + 1].frames == trace[i].frames + [(trace[i].lock.version, FrameOf(trace[i].lock.words))]
  {
    RunInv(trace, steps, i);
    assert Next(trace[i], trace[i + 1], steps[i]);
    TakenFrame(trace[i], trace[i + 1]);
    AcceptedIsWhole(trace[i].lock, trace[i].reader.read);
  }
}
