/**
 The bounded queue with any number of producers and one consumer.
 A transition system with one step per atomic access; positions are unbounded.
 */
module MpscQueue {
  import opened Basics
  import opened RingCells

  type Item(!new, ==)

  datatype Cell = Cell(sequence: nat, item: Option<Item>)

  /** Where a producer stands inside `push`. */
  datatype Producer =
    | Idle
    | Loaded(item: Item, pos: nat)                  // position read
    | Seen(item: Item, pos: nat, sequence: nat)     // cell sequence read
    | Won(item: Item, pos: nat)                     // position claimed, cell not written
    | Written(item: Item, pos: nat)                 // cell written, not published

  /** Where the consumer stands inside `pop`. */
  datatype Consumer =
    | Resting
    | AtCell(pos: nat)
    | Taking(pos: nat)
    | Taken(pos: nat, item: Item)
    | Freed(pos: nat)

  /** Where a caller of `depth` stands: it loads the consumed count, then the enqueued one. */
  datatype Reader =
    | Away
    | HeadLoaded(head: nat)
    | Reported(depth: int)

  /** `claimed` and `popped` record the items in the order of claims and of pops. */
  datatype State = State(
    cells: seq<Cell>,
    enqueuePos: nat,
    dequeuePos: nat,
    dropped: nat,
    producers: map<nat, Producer>,
    consumer: Consumer,
    readers: map<nat, Reader>,
    claimed: seq<Item>,
    popped: seq<Item>)
  {
    function Capacity(): nat {
      |cells|
    }

    function At(q: nat): Cell
      requires |cells| > 0
    {
      cells[q % |cells|]
    }

    function Put(q: nat, c: Cell): State
      requires |cells| > 0
    {
      this.(cells := cells[q % |cells| := c])
    }

    function Move(p: nat, to: Producer): State {
      this.(producers := producers[p := to])
    }
  }

  ghost predicate Init(s: State) {
    && s.Capacity() >= 2
    && (forall i :: 0 <= i < |s.cells| ==> s.cells[i].sequence == i)
    && s.enqueuePos == 0 && s.dequeuePos == 0 && s.dropped == 0
    && (forall p :: p in s.producers ==> s.producers[p] == Idle)
    && (forall r :: r in s.readers ==> s.readers[r] == Away)
    && s.consumer == Resting && s.claimed == [] && s.popped == []
  }

  datatype Step =
    | Call(p: nat, item: Item)
    | ReadSequence(p: nat)
    | Claim(p: nat)
    | ClaimLost(p: nat)
    | Refuse(p: nat)
    | Reload(p: nat)
    | WriteItem(p: nat)
    | Publish(p: nat)
    | PopStart
    | PopCheck
    | PopCopy
    | PopFree
    | PopAdvance
    | DepthHead(r: nat)
    | DepthTail(r: nat)

  predicate IsDepth(step: Step) {
    step.DepthHead? || step.DepthTail?
  }

  ghost predicate ProducerStep(s: State, t: State, step: Step)
    requires s.Capacity() > 0 && !(step in {PopStart, PopCheck, PopCopy, PopFree, PopAdvance}) && !IsDepth(step)
  {
    var p := step.p;
    && p in s.producers
    && match step
       case Call(_, item) =>
         s.producers[p].Idle? && t == s.Move(p, Loaded(item, s.enqueuePos))
       case ReadSequence(_) =>
         && s.producers[p].Loaded?
         && var pos := s.producers[p].pos;
            t == s.Move(p, Seen(s.producers[p].item, pos, s.At(pos).sequence))
       case Claim(_) =>
         && s.producers[p].Seen? && s.producers[p].sequence == s.producers[p].pos == s.enqueuePos
         && var item := s.producers[p].item;
            t == s.Move(p, Won(item, s.enqueuePos)).(enqueuePos := s.enqueuePos + 1, claimed := s.claimed + [item])
       case ClaimLost(_) =>   // another producer won, or the exchange failed spuriously
         && s.producers[p].Seen? && s.producers[p].sequence == s.producers[p].pos
         && t == s.Move(p, Loaded(s.producers[p].item, s.enqueuePos))
       case Refuse(_) =>
         && s.producers[p].Seen? && s.producers[p].sequence < s.producers[p].pos
         && t == s.Move(p, Idle).(dropped := s.dropped + 1)
       case Reload(_) =>
         && s.producers[p].Seen? && s.producers[p].sequence > s.producers[p].pos
         && t == s.Move(p, Loaded(s.producers[p].item, s.enqueuePos))
       case WriteItem(_) =>
         && s.producers[p].Won?
         && var Won(item, pos) := s.producers[p];
            t == s.Move(p, Written(item, pos)).Put(pos, Cell(s.At(pos).sequence, Some(item)))
       case Publish(_) =>
         && s.producers[p].Written?
         && var pos := s.producers[p].pos;
            t == s.Move(p, Idle).Put(pos, Cell(pos + 1, s.At(pos).item))
  }

  ghost predicate ConsumerStep(s: State, t: State, step: Step)
    requires s.Capacity() > 0 && step in {PopStart, PopCheck, PopCopy, PopFree, PopAdvance}
  {
    match step
    case PopStart =>
      s.consumer.Resting? && t == s.(consumer := AtCell(s.dequeuePos))
    case PopCheck =>
      && s.consumer.AtCell?
      && var pos := s.consumer.pos;
         t == s.(consumer := if s.At(pos).sequence == pos + 1 then Taking(pos) else Resting)
    case PopCopy =>
      && s.consumer.Taking? && s.At(s.consumer.pos).item.Some?
      && t == s.(consumer := Taken(s.consumer.pos, s.At(s.consumer.pos).item.value))
    case PopFree =>
      && s.consumer.Taken?
      && var Taken(pos, item) := s.consumer;
         t == s.Put(pos, Cell(pos + s.Capacity(), s.At(pos).item)).(consumer := Freed(pos), popped := s.popped + [item])
    case PopAdvance =>
      && s.consumer.Freed? && t == s.(dequeuePos := s.consumer.pos + 1, consumer := Resting)
  }

  ghost predicate ReaderStep(s: State, t: State, step: Step)
    requires IsDepth(step)
  {
    && step.r in s.readers
    && match step
       case DepthHead(r) =>
         !s.readers[r].HeadLoaded? && t == s.(readers := s.readers[r := HeadLoaded(s.dequeuePos)])
       case DepthTail(r) =>
         && s.readers[r].HeadLoaded?
         && t == s.(readers := s.readers[r := Reported(s.enqueuePos - s.readers[r].head)])
  }

  ghost predicate Next(s: State, t: State, step: Step) {
    && s.Capacity() > 0
    && if step in {PopStart, PopCheck, PopCopy, PopFree, PopAdvance} then ConsumerStep(s, t, step)
       else if IsDepth(step) then ReaderStep(s, t, step)
       else ProducerStep(s, t, step)
  }

  // ---------- the invariant ----------

  /** Positions freed so far; the window of live positions starts here. */
  function Head(s: State): nat {
    |s.popped|
  }

  ghost predicate Positions(s: State) {
    && s.Capacity() >= 2
    && |s.claimed| == s.enqueuePos
    && Head(s) <= s.enqueuePos <= Head(s) + s.Capacity()
    && s.popped == s.claimed[..Head(s)]
  }

  ghost predicate ConsumerOk(s: State)
    requires Positions(s)
  {
    var h := Head(s);
    match s.consumer
    case Resting => s.dequeuePos == h
    case AtCell(pos) => pos == s.dequeuePos == h
    case Taking(pos) => pos == s.dequeuePos == h && h < s.enqueuePos && s.At(h).sequence == h + 1
    case Taken(pos, item) =>
      pos == s.dequeuePos == h && h < s.enqueuePos && s.At(h).sequence == h + 1 && item == s.claimed[h]
    case Freed(pos) => pos == s.dequeuePos && pos + 1 == h
  }

  /** A claimed position awaits its item or holds it; a free one carries its own number. */
  ghost predicate CellOk(s: State, q: nat)
    requires Positions(s) && Head(s) <= q < Head(s) + s.Capacity()
  {
    var cell := s.At(q);
    if q < s.enqueuePos then
      cell.sequence == q || (cell.sequence == q + 1 && cell.item == Some(s.claimed[q]))
    else
      cell.sequence == q
  }

  ghost predicate CellsOk(s: State)
    requires Positions(s)
  {
    forall q :: Head(s) <= q < Head(s) + s.Capacity() ==> CellOk(s, q)
  }

  ghost predicate ProducerOk(s: State, who: Producer)
    requires Positions(s)
  {
    match who
    case Idle => true
    case Loaded(_, pos) => pos <= s.enqueuePos
    case Seen(_, pos, sequence) =>
      && pos <= s.enqueuePos
      && (sequence == pos ==> pos < Head(s) + s.Capacity())
    case Won(item, pos) =>
      Head(s) <= pos < s.enqueuePos && s.At(pos).sequence == pos && s.claimed[pos] == item
    case Written(item, pos) =>
      Head(s) <= pos < s.enqueuePos && s.At(pos) == Cell(pos, Some(item)) && s.claimed[pos] == item
  }

  predicate Owns(who: Producer) {
    who.Won? || who.Written?
  }

  ghost predicate ProducersOk(s: State)
    requires Positions(s)
  {
    && (forall p :: p in s.producers ==> ProducerOk(s, s.producers[p]))
    && (forall p, r :: p in s.producers && r in s.producers && p != r
                       && Owns(s.producers[p]) && Owns(s.producers[r])
                       ==> s.producers[p].pos != s.producers[r].pos)
  }

  ghost predicate Inv(s: State) {
    Positions(s) && ConsumerOk(s) && CellsOk(s) && ProducersOk(s)
  }

  lemma InitInv(s: State)
    requires Init(s)
    ensures Inv(s)
  {
    forall q | 0 <= q < s.Capacity() ensures CellOk(s, q) {
      assert q % s.Capacity() == q;
    }
  }

  // ---------- what a producer sees ----------

  /**
   The cell of a position at most the tail: behind the window it has moved on,
   inside it carries the position or the one after, and just past the window it
   still belongs to the oldest unfreed position.
   */
  lemma SequenceSeen(s: State, pos: nat)
    requires Inv(s) && pos <= s.enqueuePos
    ensures s.At(pos).sequence == pos ==> pos < Head(s) + s.Capacity()
    ensures s.At(pos).sequence < pos ==> pos == s.enqueuePos == Head(s) + s.Capacity()
  {
    var h, c := Head(s), s.Capacity();
    if pos < h + c {
      var r := Representative(c, pos, h);
      assert CellOk(s, r);
    } else {
      SameCell(c, h);
      assert CellOk(s, h);
    }
  }

  /**
   A push refuses only at a moment when Capacity claimed positions are unconsumed:
   when it read the cell's sequence, the positions from `pos - Capacity` to `pos` were.
   */
  lemma RefusalMeansFull(s: State, t: State, p: nat)
    requires Inv(s) && Next(s, t, ReadSequence(p))
    requires t.producers[p].sequence < t.producers[p].pos   // the refusing branch
    ensures s.enqueuePos - s.dequeuePos >= s.Capacity()
    ensures t.producers[p].pos == s.enqueuePos && s.dequeuePos <= s.enqueuePos - s.Capacity()
  {
    SequenceSeen(s, s.producers[p].pos);
  }

  /** The item about to be overwritten was popped already. */
  lemma NoUnreadItemOverwritten(s: State, t: State, p: nat)
    requires Inv(s) && Next(s, t, WriteItem(p))
    ensures var pos := s.producers[p].pos;
            && pos < |s.popped| + s.Capacity()
            && forall q :: |s.popped| <= q < s.enqueuePos && q != pos ==> t.At(q) == s.At(q)
  {
    var pos := s.producers[p].pos;
    forall q | |s.popped| <= q < s.enqueuePos && q != pos ensures t.At(q) == s.At(q) {
      DistinctFrom(s, pos, q);
    }
  }

  // ---------- preservation ----------

  lemma DistinctFrom(s: State, q: nat, r: nat)
    requires Positions(s)
    requires Head(s) <= q < Head(s) + s.Capacity() && Head(s) <= r < Head(s) + s.Capacity() && q != r
    ensures q % s.Capacity() != r % s.Capacity()
  {
    if q < r {
      DistinctCells(s.Capacity(), q, r);
    } else {
      DistinctCells(s.Capacity(), r, q);
    }
  }

  lemma ReadSequenceInv(s: State, t: State, p: nat)
    requires Inv(s) && Next(s, t, ReadSequence(p))
    ensures Inv(t)
  {
    SequenceSeen(s, s.producers[p].pos);
    forall q | Head(t) <= q < Head(t) + t.Capacity() ensures CellOk(t, q) {
      assert CellOk(s, q);
    }
  }

  /** Only one producer's place changes, outside the claimed cells. */
  lemma MovedInv(s: State, t: State, p: nat, to: Producer)
    requires Inv(s) && p in s.producers && t == s.Move(p, to).(dropped := t.dropped) && (to.Idle? || to.Loaded?)
    requires ProducerOk(s, to)
    ensures Inv(t)
  {
    forall r | r in t.producers ensures ProducerOk(t, t.producers[r]) {
      assert r != p ==> ProducerOk(s, s.producers[r]);
    }
    forall q | Head(t) <= q < Head(t) + t.Capacity() ensures CellOk(t, q) {
      assert CellOk(s, q);
    }
  }

  lemma QuietProducerInv(s: State, t: State, step: Step)
    requires Inv(s) && Next(s, t, step)
    requires step.Call? || step.ClaimLost? || step.Refuse? || step.Reload?
    ensures Inv(t)
  {
    MovedInv(s, t, step.p, t.producers[step.p]);
  }

  lemma ClaimInv(s: State, t: State, p: nat)
    requires Inv(s) && Next(s, t, Claim(p))
    ensures Inv(t)
  {
    var pos := s.enqueuePos;
    assert ProducerOk(s, s.producers[p]);
    assert CellOk(s, pos);
    forall q | Head(t) <= q < Head(t) + t.Capacity() ensures CellOk(t, q) {
      assert CellOk(s, q);
    }
    forall r | r in t.producers ensures ProducerOk(t, t.producers[r]) {
      assert ProducerOk(s, s.producers[r]);
    }
  }

  /** A producer writing its own claimed cell disturbs no other position. */
  lemma OwnCellInv(s: State, t: State, p: nat, cell: Cell, to: Producer)
    requires Inv(s) && p in s.producers && Owns(s.producers[p])
    requires var pos := s.producers[p].pos;
             && t == s.Move(p, to).Put(pos, cell)
             && (cell.sequence == pos || cell == Cell(pos + 1, Some(s.claimed[pos])))
             && (to == Idle || (to == Written(s.producers[p].item, pos) && cell == Cell(pos, Some(s.producers[p].item))))
    ensures Inv(t)
  {
    var pos := s.producers[p].pos;
    assert ProducerOk(s, s.producers[p]);
    forall q | Head(t) <= q < Head(t) + t.Capacity() ensures CellOk(t, q) {
      assert CellOk(s, q);
      if q != pos {
        DistinctFrom(s, pos, q);
      }
    }
    forall r | r in t.producers ensures ProducerOk(t, t.producers[r]) {
      assert ProducerOk(s, s.producers[r]);
      if r != p && Owns(s.producers[r]) {
        DistinctFrom(s, pos, s.producers[r].pos);
      }
    }
    if s.consumer.Taking? || s.consumer.Taken? {
      assert pos != Head(s);
      DistinctFrom(s, pos, Head(s));
    }
  }

  lemma ConsumerLooksInv(s: State, t: State, step: Step)
    requires Inv(s) && Next(s, t, step)
    requires step.PopStart? || step.PopCheck? || step.PopCopy? || step.PopAdvance?
    ensures Inv(t)
  {
    if s.consumer.AtCell? || s.consumer.Taking? {
      assert CellOk(s, Head(s));
    }
    forall q | Head(t) <= q < Head(t) + t.Capacity() ensures CellOk(t, q) {
      assert CellOk(s, q);
    }
  }

  lemma PopFreeInv(s: State, t: State)
    requires Inv(s) && Next(s, t, PopFree)
    ensures Inv(t)
  {
    var h, c := Head(s), s.Capacity();
    SameCell(c, h);
    forall q | Head(t) <= q < Head(t) + c ensures CellOk(t, q) {
      if q < h + c {
        assert CellOk(s, q);
        DistinctFrom(s, h, q);
      }
    }
    forall r | r in t.producers ensures ProducerOk(t, t.producers[r]) {
      assert ProducerOk(s, s.producers[r]);
      if Owns(s.producers[r]) {
        DistinctFrom(s, h, s.producers[r].pos);
      }
    }
  }

  lemma ReaderInv(s: State, t: State, step: Step)
    requires Inv(s) && Next(s, t, step) && IsDepth(step)
    ensures Inv(t)
  {
    forall q | Head(t) <= q < Head(t) + t.Capacity() ensures CellOk(t, q) {
      assert CellOk(s, q);
    }
    forall p | p in t.producers ensures ProducerOk(t, t.producers[p]) {
      assert ProducerOk(s, s.producers[p]);
    }
  }

  lemma NextInv(s: State, t: State, step: Step)
    requires Inv(s) && Next(s, t, step)
    ensures Inv(t)
  {
    match step
    case Call(_, _) => QuietProducerInv(s, t, step);
    case ReadSequence(p) => ReadSequenceInv(s, t, p);
    case Claim(p) => ClaimInv(s, t, p);
    case ClaimLost(_) => QuietProducerInv(s, t, step);
    case Refuse(_) => QuietProducerInv(s, t, step);
    case Reload(_) => QuietProducerInv(s, t, step);
    case WriteItem(p) =>
      assert ProducerOk(s, s.producers[p]);
      var Won(item, pos) := s.producers[p];
      OwnCellInv(s, t, p, Cell(s.At(pos).sequence, Some(item)), Written(item, pos));
    case Publish(p) =>
      assert ProducerOk(s, s.producers[p]);
      var pos := s.producers[p].pos;
      OwnCellInv(s, t, p, Cell(pos + 1, s.At(pos).item), Idle);
    case PopStart => ConsumerLooksInv(s, t, step);
    case PopCheck => ConsumerLooksInv(s, t, step);
    case PopCopy => ConsumerLooksInv(s, t, step);
    case PopFree => PopFreeInv(s, t);
    case PopAdvance => ConsumerLooksInv(s, t, step);
    case DepthHead(_) => ReaderInv(s, t, step);
    case DepthTail(_) => ReaderInv(s, t, step);
  }

  // ---------- whole runs ----------

  ghost predicate Run(trace: seq<State>, steps: seq<Step>) {
    && |trace| == |steps| + 1
    && Init(trace[0])
    && forall i {:trigger steps[i]} :: 0 <= i < |steps| ==> Next(trace[i], trace[i + 1], steps[i])
  }

  lemma {:induction false} RunInv(trace: seq<State>, steps: seq<Step>, i: nat)
    requires Run(trace, steps) && i < |trace|
    ensures Inv(trace[i])
  {
    if i == 0 {
      InitInv(trace[0]);
    } else {
      RunInv(trace, steps, i - 1);
      NextInv(trace[i - 1], trace[i], steps[i - 1]);
    }
  }

  /** In every run the popped items are exactly the first claims, in claim order, each once. */
  lemma PopsFollowClaims(trace: seq<State>, steps: seq<Step>, i: nat)
    requires Run(trace, steps) && i < |trace|
    ensures var s := trace[i];
            && |s.claimed| == s.enqueuePos
            && |s.popped| <= |s.claimed| && s.popped == s.claimed[..|s.popped|]
  {
    RunInv(trace, steps, i);
  }

  /** The step belongs to producer `p`. */
  predicate IsOf(step: Step, p: nat) {
    !(step in {PopStart, PopCheck, PopCopy, PopFree, PopAdvance}) && !IsDepth(step) && step.p == p
  }

  /** What a producer has seen of its cell it read in the same push, with no step of its own since. */
  lemma {:induction false} SeenSince(trace: seq<State>, steps: seq<Step>, i: nat, p: nat) returns (a: nat)
    requires Run(trace, steps) && i < |trace| && p in trace[i].producers && trace[i].producers[p].Seen?
    ensures a < i && steps[a] == ReadSequence(p) && (forall b :: a < b < i ==> !IsOf(steps[b], p))
    ensures p in trace[a + 1].producers && trace[a + 1].producers[p] == trace[i].producers[p]
  {
    assert Next(trace[i - 1], trace[i], steps[i - 1]);
    if IsOf(steps[i - 1], p) {
      a := i - 1;
    } else {
      a := SeenSince(trace, steps, i - 1, p);
    }
  }

  /**
   In every run, a push that refuses read its cell at a moment, within the same push, when
   Capacity claimed positions were unconsumed.
   */
  lemma RefusalsOnlyWhenFull(trace: seq<State>, steps: seq<Step>, i: nat, p: nat) returns (a: nat)
    requires Run(trace, steps) && i < |steps| && steps[i] == Refuse(p)
    ensures a < i && steps[a] == ReadSequence(p) && (forall b :: a < b < i ==> !IsOf(steps[b], p))
    ensures trace[a].enqueuePos - trace[a].dequeuePos >= trace[a].Capacity()
  {
    assert Next(trace[i], trace[i + 1], steps[i]);
    a := SeenSince(trace, steps, i, p);
    RunInv(trace, steps, a);
    assert Next(trace[a], trace[a + 1], steps[a]);
    RefusalMeansFull(trace[a], trace[a + 1], p);
  }

  // ---------- the reported depth ----------

  /** Pops completed in a stretch of steps. */
  function Pops(steps: seq<Step>): nat {
    if steps == [] then 0 else Pops(steps[..|steps| - 1]) + if steps[|steps| - 1] == PopAdvance then 1 else 0
  }

  lemma {:induction false} PopsLast(steps: seq<Step>, i: nat, j: nat)
    requires i < j <= |steps|
    ensures Pops(steps[i..j]) == Pops(steps[i..j - 1]) + if steps[j - 1] == PopAdvance then 1 else 0
  {
    assert steps[i..j][..j - 1 - i] == steps[i..j - 1];
  }

  lemma PopsStep(s: State, t: State, step: Step)
    requires Inv(s) && Next(s, t, step)
    ensures t.dequeuePos == s.dequeuePos + (if step == PopAdvance then 1 else 0) && t.Capacity() == s.Capacity()
  {
  }

  lemma PopsAt(trace: seq<State>, steps: seq<Step>, j: nat)
    requires Run(trace, steps) && j < |steps|
    ensures trace[j + 1].dequeuePos == trace[j].dequeuePos + (if steps[j] == PopAdvance then 1 else 0)
    ensures trace[j + 1].Capacity() == trace[j].Capacity()
  {
    RunInv(trace, steps, j);
    PopsStep(trace[j], trace[j + 1], steps[j]);
  }

  lemma {:induction false} CountPops(positions: seq<nat>, steps: seq<Step>, i: nat, j: nat)
    requires |positions| == |steps| + 1 && i <= j <= |steps|
    requires forall k {:trigger steps[k]} :: 0 <= k < |steps| ==>
      positions[k + 1] == positions[k] + if steps[k] == PopAdvance then 1 else 0
    ensures positions[j] == positions[i] + Pops(steps[i..j])
  {
    if i < j {
      CountPops(positions, steps, i, j - 1);
      PopsLast(steps, i, j);
    }
  }

  /** The consumed count has moved by the pops completed. */
  lemma ConsumedByPops(trace: seq<State>, steps: seq<Step>, i: nat, j: nat)
    requires Run(trace, steps) && i <= j < |trace|
    ensures trace[j].dequeuePos == trace[i].dequeuePos + Pops(steps[i..j])
  {
    var positions: seq<nat> := seq(|trace|, k requires 0 <= k < |trace| => trace[k].dequeuePos);
    forall k | 0 <= k < |steps| ensures positions[k + 1] == positions[k] + if steps[k] == PopAdvance then 1 else 0 {
      PopsAt(trace, steps, k);
    }
    CountPops(positions, steps, i, j);
  }

  lemma {:induction false} CapacityKept(trace: seq<State>, steps: seq<Step>, j: nat)
    requires Run(trace, steps) && j < |trace|
    ensures trace[j].Capacity() == trace[0].Capacity()
  {
    if j > 0 {
      CapacityKept(trace, steps, j - 1);
      PopsAt(trace, steps, j - 1);
    }
  }

  lemma {:induction false} HeadKept(trace: seq<State>, steps: seq<Step>, i: nat, j: nat, r: nat)
    requires Run(trace, steps) && i < j < |trace| && steps[i] == DepthHead(r)
    requires forall k :: i < k < j ==> steps[k] != DepthTail(r)
    ensures r in trace[j].readers && trace[j].readers[r] == HeadLoaded(trace[i].dequeuePos)
  {
    assert Next(trace[j - 1], trace[j], steps[j - 1]);
    if i + 1 < j {
      HeadKept(trace, steps, i, j - 1, r);
    }
  }

  /**
   In every run, a `depth` that loads the consumed count at i and the enqueued one at j
   reports exactly the backlog at j and the pops completed in between.  So it is at most
   the capacity if and only if those pops fit into the room left at j.
   */
  lemma DepthIsBacklogAndPops(trace: seq<State>, steps: seq<Step>, i: nat, j: nat, r: nat)
    requires Run(trace, steps) && i < j < |steps| && steps[i] == DepthHead(r) && steps[j] == DepthTail(r)
    requires forall k :: i < k < j ==> steps[k] != DepthTail(r)
    ensures r in trace[j + 1].readers && trace[j + 1].readers[r].Reported?
    ensures var depth, backlog, pops := trace[j + 1].readers[r].depth, trace[j].enqueuePos - trace[j].dequeuePos, Pops(steps[i..j]);
      && depth == backlog + pops
      && (depth <= trace[j].Capacity() <==> pops <= trace[j].Capacity() - backlog)
  {
    HeadKept(trace, steps, i, j, r);
    assert Next(trace[j], trace[j + 1], steps[j]);
    ConsumedByPops(trace, steps, i, j);
  }

  /**
   So it is at most the capacity and one, and those pops; with no pop between freeing and
   advancing at the second load, at most the capacity and those pops.  The consumer itself,
   outside a pop, never sees more than the capacity.
   */
  lemma DepthBound(trace: seq<State>, steps: seq<Step>, i: nat, j: nat, r: nat)
    requires Run(trace, steps) && i < j < |steps| && steps[i] == DepthHead(r) && steps[j] == DepthTail(r)
    requires forall k :: i < k < j ==> steps[k] != DepthTail(r)
    ensures r in trace[j + 1].readers && trace[j + 1].readers[r].Reported?
    ensures var depth := trace[j + 1].readers[r].depth;
      && 0 <= depth <= trace[j].Capacity() + 1 + Pops(steps[i..j])
      && (!trace[j].consumer.Freed? ==> depth <= trace[j].Capacity() + Pops(steps[i..j]))
  {
    DepthIsBacklogAndPops(trace, steps, i, j, r);
    RunInv(trace, steps, j);
  }

  lemma Extend(trace: seq<State>, steps: seq<Step>, t: State, step: Step)
    requires Run(trace, steps) && Next(trace[|steps|], t, step)
    ensures Run(trace + [t], steps + [step])
  {
  }

  /** Nobody is inside a push or a pop, and the queue is empty. */
  ghost predicate Quiet(s: State, n: nat) {
    s.enqueuePos == n == s.dequeuePos && s.consumer == Resting && 0 in s.producers && s.producers[0] == Idle
  }

  lemma PushOnce(before: seq<State>, done: seq<Step>, n: nat, item: Item) returns (trace: seq<State>, steps: seq<Step>)
    requires Run(before, done) && Quiet(before[|done|], n)
    ensures Run(trace, steps)
    ensures var s, t := before[|done|], trace[|steps|];
      && t == s.(cells := t.cells, enqueuePos := n + 1, claimed := t.claimed, producers := t.producers)
      && 0 in t.producers && t.producers[0] == Idle && |t.cells| == |s.cells| > 0 && t.At(n) == Cell(n + 1, Some(item))
  {
    trace, steps := before, done;
    var s := trace[|steps|];
    RunInv(trace, steps, |steps|);
    assert CellOk(s, n);
    var s1 := s.Move(0, Loaded(item, n));
    Extend(trace, steps, s1, Call(0, item));
    trace, steps := trace + [s1], steps + [Call(0, item)];
    var s2 := s1.Move(0, Seen(item, n, n));
    Extend(trace, steps, s2, ReadSequence(0));
    trace, steps := trace + [s2], steps + [ReadSequence(0)];
    var s3 := s2.Move(0, Won(item, n)).(enqueuePos := n + 1, claimed := s.claimed + [item]);
    Extend(trace, steps, s3, Claim(0));
    trace, steps := trace + [s3], steps + [Claim(0)];
    var s4 := s3.Move(0, Written(item, n)).Put(n, Cell(n, Some(item)));
    Extend(trace, steps, s4, WriteItem(0));
    trace, steps := trace + [s4], steps + [WriteItem(0)];
    var s5 := s4.Move(0, Idle).Put(n, Cell(n + 1, Some(item)));
    Extend(trace, steps, s5, Publish(0));
    trace, steps := trace + [s5], steps + [Publish(0)];
  }

  lemma PopOnce(before: seq<State>, done: seq<Step>, n: nat, item: Item) returns (trace: seq<State>, steps: seq<Step>)
    requires Run(before, done)
    requires var s := before[|done|];
      s.dequeuePos == n && s.consumer == Resting && s.Capacity() > 0 && s.At(n) == Cell(n + 1, Some(item))
    ensures Run(trace, steps)
    ensures var s, t := before[|done|], trace[|steps|];
      t == s.(cells := t.cells, dequeuePos := n + 1, popped := t.popped) && |t.cells| == |s.cells|
  {
    trace, steps := before, done;
    var s := trace[|steps|];
    var s1 := s.(consumer := AtCell(n));
    Extend(trace, steps, s1, PopStart);
    trace, steps := trace + [s1], steps + [PopStart];
    var s2 := s.(consumer := Taking(n));
    Extend(trace, steps, s2, PopCheck);
    trace, steps := trace + [s2], steps + [PopCheck];
    var s3 := s.(consumer := Taken(n, item));
    Extend(trace, steps, s3, PopCopy);
    trace, steps := trace + [s3], steps + [PopCopy];
    var s4 := s.Put(n, Cell(n + s.Capacity(), Some(item))).(consumer := Freed(n), popped := s.popped + [item]);
    Extend(trace, steps, s4, PopFree);
    trace, steps := trace + [s4], steps + [PopFree];
    var s5 := s4.(dequeuePos := n + 1, consumer := Resting);
    Extend(trace, steps, s5, PopAdvance);
    trace, steps := trace + [s5], steps + [PopAdvance];
  }

  /** n pushes, each popped again, while a caller of `depth` rests between its two loads. */
  lemma {:induction false} Cycles(capacity: nat, n: nat, item: Item) returns (trace: seq<State>, steps: seq<Step>)
    requires capacity >= 2
    ensures Run(trace, steps)
    ensures var t := trace[|steps|];
      Quiet(t, n) && t.Capacity() == capacity && 0 in t.readers && t.readers[0] == HeadLoaded(0)
  {
    if n == 0 {
      var cells := seq(capacity, i requires i >= 0 => Cell(i, None));
      var s := State(cells, 0, 0, 0, map[0 := Idle], Resting, map[0 := Away], [], []);
      assert Run([s], []);
      var t := s.(readers := map[0 := HeadLoaded(0)]);
      Extend([s], [], t, DepthHead(0));
      trace, steps := [s] + [t], [] + [DepthHead(0)];
    } else {
      trace, steps := Cycles(capacity, n - 1, item);
      trace, steps := PushOnce(trace, steps, n - 1, item);
      trace, steps := PopOnce(trace, steps, n - 1, item);
    }
  }

  /** So the reported depth has no bound: whatever the capacity, some run reports any given number. */
  lemma DepthCanReportAnything(capacity: nat, n: nat, item: Item) returns (trace: seq<State>, steps: seq<Step>)
    requires capacity >= 2
    ensures Run(trace, steps) && trace[0].Capacity() == capacity
    ensures 0 in trace[|steps|].readers && trace[|steps|].readers[0] == Reported(n)
    ensures trace[|steps|].enqueuePos == trace[|steps|].dequeuePos
  {
    trace, steps := Cycles(capacity, n, item);
    var s := trace[|steps|];
    CapacityKept(trace, steps, |steps|);
    var t := s.(readers := s.readers[0 := Reported(n)]);
    Extend(trace, steps, t, DepthTail(0));
    assert (trace + [t])[0] == trace[0];
    trace, steps := trace + [t], steps + [DepthTail(0)];
  }

  // ---------- the queue used from one thread at a time ----------

  /** The queue's own fields; without interleaving it is a bounded first-in first-out queue that counts refusals. */
  class Queue {
    const cells: array<Cell>
    var enqueuePos: nat
    var dequeuePos: nat
    var dropped: nat
    ghost var claimed: seq<Item>

    ghost predicate Valid()
      reads this, cells
    {
      && cells.Length >= 2 && enqueuePos == |claimed| && dequeuePos <= enqueuePos <= dequeuePos + cells.Length
      && (forall q :: dequeuePos <= q < enqueuePos ==> Holds(q))
      && (forall q :: enqueuePos <= q < dequeuePos + cells.Length ==> Free(q))
    }

    ghost predicate Holds(q: nat)
      requires cells.Length > 0 && q < |claimed|
      reads this`claimed, cells
    {
      cells[q % cells.Length] == Cell(q + 1, Some(claimed[q]))
    }

    ghost predicate Free(q: nat)
      requires cells.Length > 0
      reads cells
    {
      cells[q % cells.Length].sequence == q
    }

    ghost function Contents(): seq<Item>
      requires dequeuePos <= |claimed|
      reads this
    {
      claimed[dequeuePos..]
    }

    constructor (capacity: nat)
      requires capacity >= 2
      ensures Valid() && fresh(cells) && cells.Length == capacity && Contents() == [] && dropped == 0
    {
      cells := new Cell[capacity](i => Cell(i, None));
      enqueuePos, dequeuePos, dropped, claimed := 0, 0, 0, [];
      new;
      forall q | 0 <= q < capacity ensures Free(q) {
        SmallMod(q, capacity);
      }
    }

    /** Alone, a producer finds its cell free or a whole lap behind, never ahead. */
    method Push(item: Item) returns (ok: bool)
      requires Valid()
      modifies this`enqueuePos, this`dropped, this`claimed, cells
      ensures Valid() && (ok <==> |old(Contents())| < cells.Length)
      ensures Contents() == if ok then old(Contents()) + [item] else old(Contents())
      ensures dropped == old(dropped) + if ok then 0 else 1
    {
      var pos, c := enqueuePos, cells.Length;
      assert |Contents()| == pos - dequeuePos;
      if pos == dequeuePos + c {
        SameCell(c, dequeuePos);
        assert Holds(dequeuePos);
        assert cells[pos % c].sequence == dequeuePos + 1;
      } else {
        assert Free(pos);
        assert cells[pos % c].sequence == pos;
      }
      if cells[pos % c].sequence < pos {
        dropped := dropped + 1;
        assert forall q :: dequeuePos <= q < enqueuePos ==> old(Holds(q));
        return false;
      }
      enqueuePos := pos + 1;
      cells[pos % c] := Cell(pos, Some(item));
      cells[pos % c] := cells[pos % c].(sequence := pos + 1);
      claimed := claimed + [item];
      forall q | dequeuePos <= q < dequeuePos + c && q != pos ensures q % c != pos % c {
        Apart(c, q, pos);
      }
      forall q | dequeuePos <= q < pos ensures Holds(q) {
        assert old(Holds(q));
      }
      forall q | pos < q < dequeuePos + c ensures Free(q) {
        assert old(Free(q));
      }
      return true;
    }

    method Pop() returns (out: Option<Item>)
      requires Valid()
      modifies this`dequeuePos, cells
      ensures Valid() && (out.None? <==> old(Contents()) == [])
      ensures out.Some? ==> old(Contents()) == [out.value] + Contents()
      ensures out.None? ==> Contents() == old(Contents())
    {
      var pos, c := dequeuePos, cells.Length;
      if pos < enqueuePos {
        assert Holds(pos);
      } else {
        assert Free(pos);
      }
      if cells[pos % c].sequence != pos + 1 {
        return None;
      }
      out := cells[pos % c].item;
      SameCell(c, pos);
      cells[pos % c] := cells[pos % c].(sequence := pos + c);
      dequeuePos := pos + 1;
      forall q | pos < q < pos + c ensures q % c != pos % c {
        Apart(c, q, pos);
      }
      forall q | dequeuePos <= q < enqueuePos ensures Holds(q) {
        assert old(Holds(q));
      }
      forall q | enqueuePos <= q < dequeuePos + c ensures Free(q) {
        assert q < pos + c ==> old(Free(q));
      }
    }
  }

  lemma SmallMod(q: nat, c: nat)
    requires q < c
    ensures q % c == q
  {
  }

  lemma Apart(c: nat, q: nat, r: nat)
    requires c > 0 && q != r && q < r + c && r < q + c
    ensures q % c != r % c
  {
    if q < r {
      DistinctCells(c, q, r);
    } else {
      DistinctCells(c, r, q);
    }
  }
}
