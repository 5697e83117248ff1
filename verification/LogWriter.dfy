/**
 The background log writer: producers enqueue or are refused, one worker drains the
 queue in passes (ring, batch, sink write, sink flush), and any number of callers
 wait in `flush` for what was enqueued before their call.  The sink answers as it
 likes.  One step per shared access; the queue itself is the one of MpscQueue, seen
 as the sequence of claimed records.
 */
module LogWriter {

  import opened Basics

  /** A record that is only for the in-memory ring never reaches the sink. */
  datatype Record = Record(ringOnly: bool)

  /** What goes to the ring and the batch: queue position `q`, or a line counting drops. */
  datatype Line = Rec(q: nat) | Drops(count: nat)

  datatype Worker =
    | Resting
    | ReadDropped(dropped: nat)
    | Draining(dropped: nat, queuedAtStart: nat, passStart: nat, dropLinePending: bool, batch: seq<Line>)
    | Batched(passStart: nat, consumedNow: nat, batch: seq<Line>)   // drained, not yet written
    | Handed(consumedNow: nat)                                      // written or lost, not yet flushed
    | Flushed(consumedNow: nat)                                     // flush tried or not due
    | Exited

  datatype Flusher =
    | Idle
    | Waiting(target: nat)
    | SawDurable(target: nat)
    | Confirmed(target: nat)     // flush returned true
    | Refused                    // flush returned false

  /**
   `written` are the queue positions whose batch the sink accepted, `refused` those whose
   batch it did not, `synced` those for which a sink flush succeeded after the write.  `finalTarget` is where the queue ended
   when the worker saw the stop; it leaves once it has drained that far.
   */
  datatype State = State(
    queue: seq<Record>,
    consumed: nat,
    dropped: nat,
    worker: Worker,
    unflushed: bool,
    durable: nat,
    lostFrom: Option<nat>,
    lastDropped: nat,
    ring: seq<Line>,
    written: set<nat>,
    refused: set<nat>,
    synced: set<nat>,
    flushers: map<nat, Flusher>,
    stopping: bool,
    finalTarget: Option<nat>)

  datatype Step =
    | Push(record: Record)
    | Refuse
    | ReadDrops
    | BeginPass
    | Pop
    | EndDrain
    | Write(ok: bool)
    | NothingToWrite
    | SinkFlush(ok: bool)
    | FlushNotDue
    | StoreDurable
    | CallStop
    | SeeStop
    | CallFlush(f: nat)
    | LoadDurable(f: nat)
    | LoadLost(f: nat)
    | TimeOut(f: nat)

  ghost predicate Init(s: State) {
    && s.queue == [] && s.consumed == 0 && s.dropped == 0 && s.worker == Resting && !s.unflushed
    && s.durable == 0 && s.lostFrom == None && s.lastDropped == 0 && s.ring == []
    && s.written == {} && s.refused == {} && s.synced == {} && !s.stopping && s.finalTarget == None
    && forall f :: f in s.flushers ==> s.flushers[f] == Idle
  }

  function Positions(lines: seq<Line>): set<nat> {
    set i | 0 <= i < |lines| && lines[i].Rec? :: lines[i].q
  }

  function Lower(lost: Option<nat>, to: nat): Option<nat> {
    if lost.None? || lost.value > to then Some(to) else lost
  }

  /** The drop line, when one is due before the record at the queue's front. */
  function DropLineFor(s: State): seq<Line>
    requires s.worker.Draining? && s.worker.dropped >= s.lastDropped
  {
    if s.worker.dropLinePending && s.consumed >= s.worker.queuedAtStart
    then [Drops(s.worker.dropped - s.lastDropped)] else []
  }

  ghost predicate WorkerStep(s: State, t: State, step: Step)
    requires !step.Push? && !step.Refuse? && !step.CallStop?
    requires !step.CallFlush? && !step.LoadDurable? && !step.LoadLost? && !step.TimeOut?
  {
    match step
    case ReadDrops => s.worker == Resting && t == s.(worker := ReadDropped(s.dropped))
    case BeginPass =>
      && s.worker.ReadDropped?
      && var d := s.worker.dropped;
         t == s.(worker := Draining(d, |s.queue|, s.consumed, d != s.lastDropped, []))
    case Pop =>
      && s.worker.Draining? && s.consumed < |s.queue| && s.worker.dropped >= s.lastDropped
      && var drop := DropLineFor(s);
         var line := [Rec(s.consumed)];
         var w := s.worker;
         t == s.(consumed := s.consumed + 1,
                 ring := s.ring + drop + line,
                 lastDropped := if drop == [] then s.lastDropped else w.dropped,
                 worker := w.(dropLinePending := w.dropLinePending && drop == [],
                              batch := w.batch + drop + (if s.queue[s.consumed].ringOnly then [] else line)))
    case EndDrain =>
      && s.worker.Draining? && s.worker.dropped >= s.lastDropped
      && var w := s.worker;
         var drop := if w.dropLinePending then [Drops(w.dropped - s.lastDropped)] else [];
         t == s.(ring := s.ring + drop,
                 lastDropped := if drop == [] then s.lastDropped else w.dropped,
                 worker := Batched(w.passStart, s.consumed, w.batch + drop))
    case Write(ok) =>
      && s.worker.Batched? && s.worker.batch != []
      && var Batched(passStart, consumedNow, batch) := s.worker;
         t == if ok then s.(unflushed := true, written := s.written + Positions(batch), worker := Handed(consumedNow))
              else s.(lostFrom := Lower(s.lostFrom, passStart), refused := s.refused + Positions(batch), worker := Handed(consumedNow))
    case NothingToWrite =>
      s.worker.Batched? && s.worker.batch == [] && t == s.(worker := Handed(s.worker.consumedNow))
    case SinkFlush(ok) =>
      && s.worker.Handed? && s.unflushed
      && t == if ok then s.(unflushed := false, synced := s.written, worker := Flushed(s.worker.consumedNow))
              else s.(worker := Flushed(s.worker.consumedNow))
    case FlushNotDue =>   // a pass after the stop always tries
      && s.worker.Handed? && (s.unflushed ==> s.finalTarget.None?)
      && t == s.(worker := Flushed(s.worker.consumedNow))
    case StoreDurable =>
      && s.worker.Flushed?
      && t == s.(durable := if s.unflushed then s.durable else s.worker.consumedNow,
                 worker := if s.finalTarget.Some? && s.consumed >= s.finalTarget.value then Exited else Resting)
    case SeeStop =>
      && s.worker == Resting && s.stopping && s.finalTarget.None?
      && t == s.(finalTarget := Some(|s.queue|))
  }

  ghost predicate FlusherStep(s: State, t: State, step: Step)
    requires step.CallFlush? || step.LoadDurable? || step.LoadLost? || step.TimeOut?
  {
    var f := step.f;
    && f in s.flushers
    && match step
       case CallFlush(_) => s.flushers[f] == Idle && t == s.(flushers := s.flushers[f := Waiting(|s.queue|)])
       case LoadDurable(_) =>
         && s.flushers[f].Waiting?
         && t == if s.durable >= s.flushers[f].target then s.(flushers := s.flushers[f := SawDurable(s.flushers[f].target)])
                 else s
       case LoadLost(_) =>   // the second half of the check; a loss below the target refuses
         && s.flushers[f].SawDurable?
         && var target := s.flushers[f].target;
            var intact := s.lostFrom.None? || s.lostFrom.value >= target;
            t == s.(flushers := s.flushers[f := if intact then Confirmed(target) else Refused])
       case TimeOut(_) => s.flushers[f].Waiting? && t == s.(flushers := s.flushers[f := Refused])
  }

  ghost predicate Next(s: State, t: State, step: Step) {
    match step
    case Push(record) => t == s.(queue := s.queue + [record])
    case Refuse => t == s.(dropped := s.dropped + 1)
    case CallStop => t == s.(stopping := true)
    case CallFlush(_) => FlusherStep(s, t, step)
    case LoadDurable(_) => FlusherStep(s, t, step)
    case LoadLost(_) => FlusherStep(s, t, step)
    case TimeOut(_) => FlusherStep(s, t, step)
    case _ => WorkerStep(s, t, step)
  }

  // ---------- durability ----------

  predicate Lost(s: State, q: nat) {
    s.lostFrom.Some? && s.lostFrom.value <= q
  }

  /** The batch the worker holds and has not yet handed to the sink. */
  function InHand(s: State): seq<Line> {
    if s.worker.Draining? || s.worker.Batched? then s.worker.batch else []
  }

  /** Record `q` needs nothing from the sink, reached it, or was in a batch it refused. */
  ghost predicate Reached(s: State, q: nat, reached: set<nat>)
    requires q < |s.queue|
  {
    s.queue[q].ringOnly || q in reached || q in s.refused
  }

  ghost predicate FlusherOk(s: State, who: Flusher) {
    match who
    case Idle => true
    case Refused => true
    case Waiting(target) => target <= |s.queue|
    case SawDurable(target) => target <= s.consumed <= |s.queue| && forall q :: 0 <= q < target ==>
          Reached(s, q, s.synced)
    case Confirmed(target) =>
      && target <= s.consumed <= |s.queue|
      && forall q :: 0 <= q < target ==> s.queue[q].ringOnly || q in s.synced
  }

  ghost predicate PassOk(s: State) {
    && (s.worker.Draining? ==>
          s.worker.passStart <= s.consumed && s.lastDropped <= s.worker.dropped <= s.dropped
          && (s.worker.dropLinePending <==> s.worker.dropped != s.lastDropped))
    && (s.worker.ReadDropped? ==> s.lastDropped <= s.worker.dropped <= s.dropped)
    && (s.worker.Batched? ==> s.worker.passStart <= s.worker.consumedNow == s.consumed)
    && (s.worker.Handed? || s.worker.Flushed? ==> s.worker.consumedNow == s.consumed)
    && ((s.worker.Draining? || s.worker.Batched?) ==>
          forall q :: q in Positions(InHand(s)) ==> s.worker.passStart <= q < s.consumed)
  }

  ghost predicate Durable(s: State) {
    && s.consumed <= |s.queue| && s.durable <= s.consumed && s.lastDropped <= s.dropped
    && s.synced <= s.written && (!s.unflushed ==> s.synced == s.written)
    && PassOk(s)
    && (forall q :: q in s.refused ==> Lost(s, q))
    && (forall q :: 0 <= q < s.consumed ==> Reached(s, q, s.written + Positions(InHand(s))))
    && (forall q :: 0 <= q < s.durable ==> Reached(s, q, s.synced))
    && (forall f :: f in s.flushers ==> FlusherOk(s, s.flushers[f]))
  }

  lemma PositionsAppend(a: seq<Line>, b: seq<Line>)
    ensures Positions(a + b) == Positions(a) + Positions(b)
  {
    forall q | q in Positions(b) ensures q in Positions(a + b) {
      var i :| 0 <= i < |b| && b[i].Rec? && b[i].q == q;
      assert (a + b)[|a| + i] == b[i];
    }
    forall q | q in Positions(a) ensures q in Positions(a + b) {
      var i :| 0 <= i < |a| && a[i].Rec? && a[i].q == q;
      assert (a + b)[i] == a[i];
    }
  }

  /** A step that only adds to what is safe keeps every waiting flush good. */
  lemma FlushersStay(s: State, t: State)
    requires Durable(s)
    requires t.flushers == s.flushers && s.queue <= t.queue && s.consumed <= t.consumed <= |t.queue|
    requires s.synced <= t.synced
    requires s.refused <= t.refused
    ensures forall f :: f in t.flushers ==> FlusherOk(t, t.flushers[f])
  {
    forall f | f in t.flushers ensures FlusherOk(t, t.flushers[f]) {
      assert FlusherOk(s, s.flushers[f]);
      if s.flushers[f].SawDurable? {
        forall q | 0 <= q < s.flushers[f].target ensures Reached(t, q, t.synced) {
          assert Reached(s, q, s.synced);
        }
      }
    }
  }

  lemma ReachedStays(s: State, t: State, upTo: nat, before: set<nat>, after: set<nat>)
    requires upTo <= |s.queue| && s.queue <= t.queue && before <= after
    requires forall q :: 0 <= q < upTo ==> Reached(s, q, before)
    requires s.refused <= t.refused
    ensures forall q :: 0 <= q < upTo ==> Reached(t, q, after)
  {
    forall q | 0 <= q < upTo ensures Reached(t, q, after) {
      assert Reached(s, q, before);
    }
  }

  lemma PopDurable(s: State, t: State)
    requires Durable(s) && Next(s, t, Pop)
    ensures Durable(t)
  {
    var drop := DropLineFor(s);
    var line := if s.queue[s.consumed].ringOnly then [] else [Rec(s.consumed)];
    assert drop == [] || Positions(drop) == {};
    assert Positions(line) == if line == [] then {} else {s.consumed} by {
      if line != [] {
        assert line[0] == Rec(s.consumed);
      }
    }
    PositionsAppend(s.worker.batch + drop, line);
    PositionsAppend(s.worker.batch, drop);
    FlushersStay(s, t);
    ReachedStays(s, t, s.consumed, s.written + Positions(InHand(s)), t.written + Positions(InHand(t)));
    ReachedStays(s, t, s.durable, s.synced, t.synced);
    assert Reached(t, s.consumed, t.written + Positions(InHand(t)));
  }

  lemma EndDrainDurable(s: State, t: State)
    requires Durable(s) && Next(s, t, EndDrain)
    ensures Durable(t)
  {
    var drop := if s.worker.dropLinePending then [Drops(s.worker.dropped - s.lastDropped)] else [];
    PositionsAppend(s.worker.batch, drop);
    assert Positions(drop) == {};
    FlushersStay(s, t);
    ReachedStays(s, t, s.consumed, s.written + Positions(InHand(s)), t.written + Positions(InHand(t)));
    ReachedStays(s, t, s.durable, s.synced, t.synced);
  }

  lemma WriteDurable(s: State, t: State, step: Step)
    requires Durable(s) && Next(s, t, step) && (step.Write? || step.NothingToWrite?)
    ensures Durable(t)
  {
    assert InHand(s) == s.worker.batch;
    FlushersStay(s, t);
    ReachedStays(s, t, s.durable, s.synced, t.synced);
    forall q | 0 <= q < t.consumed ensures Reached(t, q, t.written + Positions(InHand(t))) {
      assert Reached(s, q, s.written + Positions(InHand(s)));
    }
  }

  /** The remaining worker steps: nothing is in hand and no record is lost. */
  lemma QuietDurable(s: State, t: State, step: Step)
    requires Durable(s) && Next(s, t, step)
    requires step.ReadDrops? || step.BeginPass? || step.SinkFlush? || step.FlushNotDue? || step.StoreDurable? || step.SeeStop?
    ensures Durable(t)
  {
    assert InHand(s) == [] && InHand(t) == [];
    FlushersStay(s, t);
    ReachedStays(s, t, s.consumed, s.written + Positions(InHand(s)), t.written + Positions(InHand(t)));
    ReachedStays(s, t, s.durable, s.synced, t.synced);
    if step.StoreDurable? && !s.unflushed {
      assert Positions(InHand(s)) == {};
      ReachedStays(s, t, s.consumed, s.written + Positions(InHand(s)), t.synced);
    }
  }

  lemma EnqueueDurable(s: State, t: State, step: Step)
    requires Durable(s) && Next(s, t, step) && (step.Push? || step.Refuse? || step.CallStop?)
    ensures Durable(t)
  {
    FlushersStay(s, t);
    ReachedStays(s, t, s.consumed, s.written + Positions(InHand(s)), t.written + Positions(InHand(t)));
    ReachedStays(s, t, s.durable, s.synced, t.synced);
  }

  lemma FlusherStepOk(s: State, t: State, step: Step, f: nat)
    requires Durable(s) && Next(s, t, step) && f in t.flushers
    requires step.CallFlush? || step.LoadDurable? || step.LoadLost? || step.TimeOut?
    ensures FlusherOk(t, t.flushers[f])
  {
    assert FlusherOk(s, s.flushers[f]);
    if t.flushers[f].SawDurable? {
      forall q | 0 <= q < t.flushers[f].target ensures Reached(t, q, t.synced) {
        assert Reached(s, q, s.synced);
      }
    } else if t.flushers[f].Confirmed? && s.flushers[f].SawDurable? {
      forall q | 0 <= q < t.flushers[f].target ensures t.queue[q].ringOnly || q in t.synced {
        assert Reached(s, q, s.synced);
      }
    }
  }

  lemma OnlyFlushersMoved(s: State, t: State)
    requires Durable(s) && t == s.(flushers := t.flushers)
    requires forall f :: f in t.flushers ==> FlusherOk(t, t.flushers[f])
    ensures Durable(t)
  {
    ReachedStays(s, t, s.consumed, s.written + Positions(InHand(s)), t.written + Positions(InHand(t)));
    ReachedStays(s, t, s.durable, s.synced, t.synced);
  }

  lemma FlusherDurable(s: State, t: State, step: Step)
    requires Durable(s) && Next(s, t, step)
    requires step.CallFlush? || step.LoadDurable? || step.LoadLost? || step.TimeOut?
    ensures Durable(t)
  {
    forall f | f in t.flushers ensures FlusherOk(t, t.flushers[f]) {
      FlusherStepOk(s, t, step, f);
    }
    OnlyFlushersMoved(s, t);
  }

  lemma NextDurable(s: State, t: State, step: Step)
    requires Durable(s) && Next(s, t, step)
    ensures Durable(t)
  {
    match step
    case Push(_) => EnqueueDurable(s, t, step);
    case Refuse => EnqueueDurable(s, t, step);
    case CallStop => EnqueueDurable(s, t, step);
    case Pop => PopDurable(s, t);
    case EndDrain => EndDrainDurable(s, t);
    case Write(_) => WriteDurable(s, t, step);
    case NothingToWrite => WriteDurable(s, t, step);
    case CallFlush(_) => FlusherDurable(s, t, step);
    case LoadDurable(_) => FlusherDurable(s, t, step);
    case LoadLost(_) => FlusherDurable(s, t, step);
    case TimeOut(_) => FlusherDurable(s, t, step);
    case _ => QuietDurable(s, t, step);
  }

  // ---------- the ring and the drop lines ----------

  /** The queue positions in the ring, in ring order. */
  function RecordsIn(lines: seq<Line>): seq<nat> {
    if lines == [] then []
    else
      var last := lines[|lines| - 1];
      RecordsIn(lines[..|lines| - 1]) + (if last.Rec? then [last.q] else [])
  }

  function DropsIn(lines: seq<Line>): nat {
    if lines == [] then 0
    else
      var last := lines[|lines| - 1];
      DropsIn(lines[..|lines| - 1]) + (if last.Drops? then last.count else 0)
  }

  function UpTo(n: nat): seq<nat> {
    seq(n, i => i)
  }

  ghost predicate Accounted(s: State) {
    RecordsIn(s.ring) == UpTo(s.consumed) && DropsIn(s.ring) == s.lastDropped
  }

  lemma Appended(lines: seq<Line>, line: Line)
    ensures RecordsIn(lines + [line]) == RecordsIn(lines) + (if line.Rec? then [line.q] else [])
    ensures DropsIn(lines + [line]) == DropsIn(lines) + (if line.Drops? then line.count else 0)
  {
    assert (lines + [line])[..|lines|] == lines;
  }

  lemma UpToNext(n: nat)
    ensures UpTo(n + 1) == UpTo(n) + [n]
  {
  }

  /** A record goes to the ring, with a line counting drops before it if one is due. */
  lemma RecordAppended(ring: seq<Line>, drop: seq<Line>, q: nat, count: nat)
    requires drop == [] || drop == [Drops(count)]
    ensures RecordsIn(ring + drop + [Rec(q)]) == RecordsIn(ring) + [q]
    ensures DropsIn(ring + drop + [Rec(q)]) == DropsIn(ring) + if drop == [] then 0 else count
  {
    Appended(ring + drop, Rec(q));
    if drop == [] {
      assert ring + drop == ring;
    } else {
      Appended(ring, Drops(count));
    }
  }

  lemma PopAccounted(s: State, t: State)
    requires Accounted(s) && Next(s, t, Pop)
    ensures Accounted(t)
  {
    RecordAppended(s.ring, DropLineFor(s), s.consumed, s.worker.dropped - s.lastDropped);
    UpToNext(s.consumed);
  }

  lemma EndDrainAccounted(s: State, t: State)
    requires Accounted(s) && Next(s, t, EndDrain)
    ensures Accounted(t)
  {
    if s.worker.dropLinePending {
      Appended(s.ring, Drops(s.worker.dropped - s.lastDropped));
    } else {
      assert t.ring == s.ring;
    }
  }

  lemma NextAccounted(s: State, t: State, step: Step)
    requires Accounted(s) && Next(s, t, step)
    ensures Accounted(t)
  {
    if step.Pop? {
      PopAccounted(s, t);
    } else if step.EndDrain? {
      EndDrainAccounted(s, t);
    } else {
      assert t.ring == s.ring && t.consumed == s.consumed && t.lastDropped == s.lastDropped;
    }
  }

  // ---------- whole runs ----------

  ghost predicate Run(trace: seq<State>, steps: seq<Step>) {
    && |trace| == |steps| + 1
    && Init(trace[0])
    && forall i {:trigger steps[i]} :: 0 <= i < |steps| ==> Next(trace[i], trace[i + 1], steps[i])
  }

  lemma {:induction false} RunInv(trace: seq<State>, steps: seq<Step>, i: nat)
    requires Run(trace, steps) && i < |trace|
    ensures Durable(trace[i]) && Accounted(trace[i])
  {
    if i > 0 {
      RunInv(trace, steps, i - 1);
      NextDurable(trace[i - 1], trace[i], steps[i - 1]);
      NextAccounted(trace[i - 1], trace[i], steps[i - 1]);
    }
  }

  lemma {:induction false} QueueGrows(trace: seq<State>, steps: seq<Step>, i: nat, j: nat)
    requires Run(trace, steps) && i <= j < |trace|
    ensures trace[i].queue <= trace[j].queue
    decreases j
  {
    if i < j {
      QueueGrows(trace, steps, i, j - 1);
      assert Next(trace[j - 1], trace[j], steps[j - 1]);
    }
  }

  lemma TargetStep(s: State, t: State, step: Step, f: nat, target: nat)
    requires Next(s, t, step) && f in s.flushers
    requires s.flushers[f] in {Waiting(target), SawDurable(target), Confirmed(target), Refused}
    ensures f in t.flushers && t.flushers[f] in {Waiting(target), SawDurable(target), Confirmed(target), Refused}
  {
  }

  /** A caller's target never moves between its call and its answer. */
  lemma {:induction false} TargetKept(trace: seq<State>, steps: seq<Step>, i: nat, j: nat, f: nat, target: nat)
    requires Run(trace, steps) && i <= j < |trace|
    requires f in trace[i].flushers && trace[i].flushers[f] == Waiting(target)
    ensures f in trace[j].flushers
    ensures trace[j].flushers[f] in {Waiting(target), SawDurable(target), Confirmed(target), Refused}
    decreases j
  {
    if i < j {
      TargetKept(trace, steps, i, j - 1, f, target);
      TargetStep(trace[j - 1], trace[j], steps[j - 1], f, target);
    }
  }

  /**
   A flush that returned true: every record enqueued before the call was consumed, and
   each that is meant for the sink is in a batch whose write succeeded and was followed
   by a successful sink flush.
   */
  lemma FlushMeansDurable(trace: seq<State>, steps: seq<Step>, i: nat, j: nat, f: nat)
    requires Run(trace, steps) && i < |steps| && i < j < |trace|
    requires steps[i] == CallFlush(f) && f in trace[j].flushers && trace[j].flushers[f].Confirmed?
    ensures |trace[i].queue| <= trace[j].consumed
    ensures trace[i].queue <= trace[j].queue
    ensures forall q :: 0 <= q < |trace[i].queue| ==> trace[i].queue[q].ringOnly || q in trace[j].synced
    ensures trace[j].synced <= trace[j].written
  {
    RunInv(trace, steps, j);
    assert Next(trace[i], trace[i + 1], steps[i]);
    TargetKept(trace, steps, i + 1, j, f, |trace[i].queue|);
    QueueGrows(trace, steps, i, j);
    assert FlusherOk(trace[j], trace[j].flushers[f]);
  }

  // ---------- when a flush is confirmed ----------

  /** A pass that began before position `q` is refused by the sink here. */
  predicate RefusesBefore(s: State, step: Step, q: nat) {
    step == Write(false) && s.worker.Batched? && s.worker.passStart < q
  }

  /** A pass that has everything before position `q` consumed ends here with nothing left to sync. */
  predicate SyncsUpTo(s: State, step: Step, q: nat) {
    step == StoreDurable && s.worker.Flushed? && !s.unflushed && s.worker.consumedNow >= q
  }

  lemma LostStep(s: State, t: State, step: Step, q: nat)
    requires Next(s, t, step)
    ensures (t.lostFrom.Some? && t.lostFrom.value < q) <==> (s.lostFrom.Some? && s.lostFrom.value < q) || RefusesBefore(s, step, q)
  {
  }

  lemma DurableStep(s: State, t: State, step: Step, q: nat)
    requires Durable(s) && Next(s, t, step)
    ensures t.durable >= q <==> s.durable >= q || SyncsUpTo(s, step, q)
  {
  }

  lemma {:induction false} LostIff(trace: seq<State>, steps: seq<Step>, j: nat, q: nat)
    requires Run(trace, steps) && j < |trace|
    ensures (trace[j].lostFrom.Some? && trace[j].lostFrom.value < q) <==>
            exists k {:trigger steps[k]} :: 0 <= k < j && RefusesBefore(trace[k], steps[k], q)
  {
    if j > 0 {
      LostIff(trace, steps, j - 1, q);
      LostStep(trace[j - 1], trace[j], steps[j - 1], q);
    }
  }

  lemma {:induction false} DurableIff(trace: seq<State>, steps: seq<Step>, j: nat, q: nat)
    requires Run(trace, steps) && j < |trace| && q > 0
    ensures trace[j].durable >= q <==> exists k {:trigger steps[k]} :: 0 <= k < j && SyncsUpTo(trace[k], steps[k], q)
  {
    if j > 0 {
      DurableIff(trace, steps, j - 1, q);
      RunInv(trace, steps, j - 1);
      DurableStep(trace[j - 1], trace[j], steps[j - 1], q);
    }
  }

  /**
   In every run, a waiting flush moves on from its look at what is durable if and only if a
   pass with everything queued before the call has ended with nothing left to sync.
   */
  lemma DurableSeenIff(trace: seq<State>, steps: seq<Step>, i: nat, j: nat, f: nat)
    requires Run(trace, steps) && i < j < |steps| && steps[i] == CallFlush(f) && steps[j] == LoadDurable(f)
    ensures f in trace[j].flushers && trace[j].flushers[f] == Waiting(|trace[i].queue|)
    ensures f in trace[j + 1].flushers
    ensures trace[j + 1].flushers[f].SawDurable? <==>
            |trace[i].queue| == 0 || exists k {:trigger steps[k]} :: 0 <= k < j && SyncsUpTo(trace[k], steps[k], |trace[i].queue|)
  {
    assert Next(trace[i], trace[i + 1], steps[i]);
    TargetKept(trace, steps, i + 1, j, f, |trace[i].queue|);
    assert Next(trace[j], trace[j + 1], steps[j]);
    if |trace[i].queue| > 0 {
      DurableIff(trace, steps, j, |trace[i].queue|);
    }
  }

  /** In every run, it is then confirmed if and only if no pass begun before its target was ever refused by the sink. */
  lemma ConfirmedIff(trace: seq<State>, steps: seq<Step>, i: nat, j: nat, f: nat)
    requires Run(trace, steps) && i < j < |steps| && steps[i] == CallFlush(f) && steps[j] == LoadLost(f)
    ensures f in trace[j + 1].flushers
    ensures trace[j + 1].flushers[f].Confirmed? <==>
            !exists k {:trigger steps[k]} :: 0 <= k < j && RefusesBefore(trace[k], steps[k], |trace[i].queue|)
  {
    assert Next(trace[i], trace[i + 1], steps[i]);
    TargetKept(trace, steps, i + 1, j, f, |trace[i].queue|);
    assert Next(trace[j], trace[j + 1], steps[j]);
    LostIff(trace, steps, j, |trace[i].queue|);
  }

  // ---------- stopping ----------

  /** The worker aims at the queue's end only once asked to stop, and leaves only past it. */
  ghost predicate StopOk(s: State) {
    && (s.finalTarget.Some? ==> s.stopping)
    && (s.worker == Exited ==>
          s.finalTarget.Some? && s.finalTarget.value <= s.consumed && (!s.unflushed ==> s.durable == s.consumed))
  }

  lemma NextStop(s: State, t: State, step: Step)
    requires StopOk(s) && PassOk(s) && Next(s, t, step)
    ensures StopOk(t)
  {
  }

  lemma {:induction false} RunStop(trace: seq<State>, steps: seq<Step>, j: nat)
    requires Run(trace, steps) && j < |trace|
    ensures StopOk(trace[j])
  {
    if j > 0 {
      RunStop(trace, steps, j - 1);
      RunInv(trace, steps, j - 1);
      NextStop(trace[j - 1], trace[j], steps[j - 1]);
    }
  }

  lemma AimSetOnce(s: State, t: State, step: Step)
    requires Next(s, t, step)
    ensures t.finalTarget == s.finalTarget || t.finalTarget == Some(|s.queue|)
    ensures step == CallStop ==> t.finalTarget == s.finalTarget
  {
  }

  /** Whatever was queued when the stop was asked for is before the worker's aim. */
  lemma {:induction false} StopAimsPast(trace: seq<State>, steps: seq<Step>, i: nat, j: nat)
    requires Run(trace, steps) && i < j < |trace| && steps[i] == CallStop && !trace[i].stopping
    ensures trace[j].finalTarget.Some? ==> |trace[i].queue| <= trace[j].finalTarget.value
    decreases j
  {
    AimSetOnce(trace[j - 1], trace[j], steps[j - 1]);
    if i + 1 < j {
      StopAimsPast(trace, steps, i, j - 1);
      QueueGrows(trace, steps, i, j - 1);
    } else {
      RunStop(trace, steps, i);
    }
  }

  /** What was handed to the sink comes before what is in hand, and was accepted or refused, not both. */
  ghost predicate HandedOk(s: State) {
    && s.written !! s.refused
    && (forall q :: q in s.written || q in s.refused ==>
          q < if s.worker.Draining? || s.worker.Batched? then s.worker.passStart else s.consumed)
  }

  lemma NextHanded(s: State, t: State, step: Step)
    requires HandedOk(s) && PassOk(s) && Next(s, t, step)
    ensures HandedOk(t)
  {
    if step.Write? {
      assert forall q :: q in Positions(InHand(s)) ==> s.worker.passStart <= q < s.consumed;
    }
  }

  lemma {:induction false} RunHanded(trace: seq<State>, steps: seq<Step>, j: nat)
    requires Run(trace, steps) && j < |trace|
    ensures HandedOk(trace[j])
  {
    if j > 0 {
      RunHanded(trace, steps, j - 1);
      RunInv(trace, steps, j - 1);
      NextHanded(trace[j - 1], trace[j], steps[j - 1]);
    }
  }

  /**
   In every run, when the worker has left after a stop, every record queued before the
   stop was asked for is in the ring, once and in order.  Each that is meant for the sink
   was in a batch the sink accepted or in one it refused, never in both; and unless its last
   sink flush failed every one accepted is durable.
   */
  lemma StopDrains(trace: seq<State>, steps: seq<Step>, i: nat, j: nat)
    requires Run(trace, steps) && i < |steps| && i < j < |trace|
    requires steps[i] == CallStop && !trace[i].stopping && trace[j].worker == Exited
    ensures |trace[i].queue| <= trace[j].consumed <= |trace[j].queue| && trace[i].queue <= trace[j].queue
    ensures RecordsIn(trace[j].ring) == UpTo(trace[j].consumed)
    ensures forall q :: 0 <= q < |trace[i].queue| ==>
      trace[i].queue[q].ringOnly || q in trace[j].written || q in trace[j].refused
    ensures trace[j].written !! trace[j].refused
    ensures !trace[j].unflushed ==> trace[j].synced == trace[j].written && trace[j].durable == trace[j].consumed
  {
    RunInv(trace, steps, j);
    RunStop(trace, steps, j);
    RunHanded(trace, steps, j);
    StopAimsPast(trace, steps, i, j);
    QueueGrows(trace, steps, i, j);
    forall q | 0 <= q < |trace[i].queue|
      ensures trace[i].queue[q].ringOnly || q in trace[j].written || q in trace[j].refused
    {
      assert Reached(trace[j], q, trace[j].written + Positions(InHand(trace[j])));
    }
  }

  // ---------- the account ----------

  /**
   Every record is published to the ring at most once and in queue order, and the
   drop lines add up to the drops the worker has seen.
   */
  lemma EveryRecordAccounted(trace: seq<State>, steps: seq<Step>, i: nat)
    requires Run(trace, steps) && i < |trace|
    ensures RecordsIn(trace[i].ring) == UpTo(trace[i].consumed) && trace[i].consumed <= |trace[i].queue|
    ensures DropsIn(trace[i].ring) == trace[i].lastDropped <= trace[i].dropped
    ensures trace[i].worker.Handed? ==> trace[i].consumed == trace[i].worker.consumedNow
  {
    RunInv(trace, steps, i);
  }

  /** Each submission was queued or refused: nothing else happens to it. */
  lemma {:induction false} SubmissionsCounted(trace: seq<State>, steps: seq<Step>, i: nat)
    requires Run(trace, steps) && i < |trace|
    ensures |trace[i].queue| + trace[i].dropped == Submissions(steps[..i])
  {
    if i > 0 {
      SubmissionsCounted(trace, steps, i - 1);
      assert Next(trace[i - 1], trace[i], steps[i - 1]);
      assert steps[..i][..i - 1] == steps[..i - 1];
    }
  }

  function Submissions(steps: seq<Step>): nat {
    if steps == [] then 0
    else
      var last := steps[|steps| - 1];
      Submissions(steps[..|steps| - 1]) + (if last.Push? || last.Refuse? then 1 else 0)
  }
}
