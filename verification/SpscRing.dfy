/**
 The ring with one producer and one consumer, who both work on cells in place:
 the producer fills a claimed cell before publishing it, the consumer reads the
 front cell for as long as it likes before releasing it.
 */
module SpscRing {
  import opened Basics
  import opened RingCells

  type Item(!new, ==)

  datatype Producer = Resting | Claimed | Filled(item: Item)

  datatype Consumer = Away | Holding(seen: Option<Item>)

  /** `pushed` and `released` record the items in publish and in release order. */
  datatype State = State(
    cells: seq<Option<Item>>,
    head: nat,
    tail: nat,
    producer: Producer,
    consumer: Consumer,
    pushed: seq<Item>,
    released: seq<Option<Item>>)

  datatype Step = Claim | ClaimRefused | Fill(item: Item) | Publish | Front | FrontEmpty | Look | Release

  ghost predicate Init(s: State) {
    && |s.cells| >= 2 && s.head == 0 && s.tail == 0
    && s.producer == Resting && s.consumer == Away && s.pushed == [] && s.released == []
  }

  ghost predicate Next(s: State, t: State, step: Step) {
    && |s.cells| > 0
    && match step
       case Claim => s.producer == Resting && s.head < s.tail + |s.cells| && t == s.(producer := Claimed)
       case ClaimRefused => s.producer == Resting && s.head >= s.tail + |s.cells| && t == s
       case Fill(item) =>
         && s.producer != Resting
         && t == s.(cells := s.cells[s.head % |s.cells| := Some(item)], producer := Filled(item))
       case Publish =>
         && s.producer.Filled?
         && t == s.(head := s.head + 1, producer := Resting, pushed := s.pushed + [s.producer.item])
       case Front =>
         && s.consumer == Away && s.head != s.tail
         && t == s.(consumer := Holding(s.cells[s.tail % |s.cells|]))
       case FrontEmpty => s.consumer == Away && s.head == s.tail && t == s
       case Look =>   // reading the held cell again
         s.consumer.Holding? && t == s.(consumer := Holding(s.cells[s.tail % |s.cells|]))
       case Release =>
         && s.consumer.Holding?
         && t == s.(tail := s.tail + 1, consumer := Away, released := s.released + [s.consumer.seen])
  }

  ghost predicate Live(s: State, q: nat)
    requires |s.cells| > 0 && q < |s.pushed|
  {
    s.cells[q % |s.cells|] == Some(s.pushed[q])
  }

  ghost predicate Inv(s: State) {
    && |s.cells| >= 2
    && s.tail <= s.head <= s.tail + |s.cells|
    && |s.pushed| == s.head && |s.released| == s.tail
    && (forall q :: s.tail <= q < s.head ==> Live(s, q))
    && (forall q :: 0 <= q < s.tail ==> s.released[q] == Some(s.pushed[q]))
    && (s.producer != Resting ==> s.head < s.tail + |s.cells|)
    && (s.producer.Filled? ==> s.cells[s.head % |s.cells|] == Some(s.producer.item))
    && (s.consumer.Holding? ==> s.tail < s.head && s.consumer.seen == Some(s.pushed[s.tail]))
  }

  lemma FillInv(s: State, t: State, item: Item)
    requires Inv(s) && Next(s, t, Fill(item))
    ensures Inv(t)
  {
    forall q | t.tail <= q < t.head ensures Live(t, q) {
      assert Live(s, q);
      DistinctCells(|s.cells|, q, s.head);
    }
  }

  lemma NextInv(s: State, t: State, step: Step)
    requires Inv(s) && Next(s, t, step)
    ensures Inv(t)
  {
    if step.Fill? {
      FillInv(s, t, step.item);
    } else {
      assert s.tail < s.head ==> Live(s, s.tail);
      forall q | t.tail <= q < t.head ensures Live(t, q) {
        assert q < s.head ==> Live(s, q);
      }
    }
  }

  ghost predicate Run(trace: seq<State>, steps: seq<Step>) {
    && |trace| == |steps| + 1
    && Init(trace[0])
    && forall i {:trigger steps[i]} :: 0 <= i < |steps| ==> Next(trace[i], trace[i + 1], steps[i])
  }

  lemma {:induction false} RunInv(trace: seq<State>, steps: seq<Step>, i: nat)
    requires Run(trace, steps) && i < |trace|
    ensures Inv(trace[i])
  {
    if i > 0 {
      RunInv(trace, steps, i - 1);
      NextInv(trace[i - 1], trace[i], steps[i - 1]);
    }
  }

  /**
   In every run: what the consumer released, and what it sees in the cell it
   holds however often it looks, is the published stream, in order, each item once.
   */
  lemma ConsumerSeesStream(trace: seq<State>, steps: seq<Step>, i: nat)
    requires Run(trace, steps) && i < |trace|
    ensures var s := trace[i];
            && |s.released| <= |s.pushed| <= |s.released| + |s.cells|
            && (forall q :: 0 <= q < |s.released| ==> s.released[q] == Some(s.pushed[q]))
            && (s.consumer.Holding? ==>
                  |s.released| < |s.pushed| && s.consumer.seen == Some(s.pushed[|s.released|]))
  {
    RunInv(trace, steps, i);
  }

  // ---------- the ring used from one thread at a time ----------

  /** The ring's own fields; without interleaving it is a bounded first-in first-out queue. */
  class Ring {
    const cells: array<Option<Item>>
    var head: nat
    var tail: nat
    ghost var pushed: seq<Item>

    ghost predicate Valid()
      reads this, cells
    {
      && cells.Length > 0 && head == |pushed| && tail <= head <= tail + cells.Length
      && forall q :: tail <= q < head ==> cells[q % cells.Length] == Some(pushed[q])
    }

    ghost function Contents(): seq<Item>
      requires tail <= |pushed|
      reads this
    {
      pushed[tail..]
    }

    constructor (capacity: nat)
      requires capacity > 0
      ensures Valid() && fresh(cells) && cells.Length == capacity && Contents() == []
    {
      cells := new Option<Item>[capacity](_ => None);
      head, tail, pushed := 0, 0, [];
    }

    method Push(item: Item) returns (ok: bool)
      requires Valid()
      modifies this`head, this`pushed, cells
      ensures Valid() && (ok <==> |old(Contents())| < cells.Length)
      ensures Contents() == old(Contents()) + if ok then [item] else []
    {
      if head - tail >= cells.Length {
        return false;
      }
      forall q | tail <= q < head ensures q % cells.Length != head % cells.Length {
        DistinctCells(cells.Length, q, head);
      }
      cells[head % cells.Length] := Some(item);
      head := head + 1;
      pushed := pushed + [item];
      return true;
    }

    method Pop() returns (out: Option<Item>)
      requires Valid()
      modifies this`tail
      ensures Valid() && (out.None? <==> old(Contents()) == [])
      ensures out.Some? ==> old(Contents()) == [out.value] + Contents()
      ensures out.None? ==> Contents() == old(Contents())
    {
      if head == tail {
        return None;
      }
      out := cells[tail % cells.Length];
      tail := tail + 1;
    }
  }
}
