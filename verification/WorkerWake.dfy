/**
 The wake-up handshake between a worker and its producers.  A worker that finds
 all its sources empty after raising `sleeping` waits for a permit; a producer
 publishes, and releases a permit if it is the one to lower the flag.
 The sources are the rings, queues and request counters the worker drains, each
 seen as a pair of counters; the worker reads them one at a time.
 */
module WorkerWake {

  datatype Worker =
    | Awake
    | Checking(next: nat)   // flag raised, sources before `next` found empty
    | Blocking              // all found empty, waiting for a permit
    | Leaving               // about to lower the flag

  datatype Producer =
    | Outside
    | Published             // work visible, flag not read yet
    | SawSleeping           // flag read as raised, about to lower it
    | Lowered               // lowered the flag, about to release a permit

  datatype State = State(
    pushed: seq<nat>,
    popped: seq<nat>,
    sleeping: bool,
    permits: nat,
    worker: Worker,
    producers: map<nat, Producer>)

  datatype Step =
    | Publish(p: nat, source: nat)
    | LoadFlag(p: nat)
    | LowerFlag(p: nat)
    | ReleasePermit(p: nat)
    | Consume(source: nat)
    | RaiseFlag
    | CheckSource
    | Block
    | AcquirePermit
    | Leave

  ghost predicate Init(s: State) {
    && |s.pushed| == |s.popped|
    && (forall k :: 0 <= k < |s.pushed| ==> s.pushed[k] == 0 && s.popped[k] == 0)
    && !s.sleeping && s.permits == 0 && s.worker == Awake
    && forall p :: p in s.producers ==> s.producers[p] == Outside
  }

  ghost predicate Next(s: State, t: State, step: Step) {
    match step
    case Publish(p, k) =>
      && p in s.producers && s.producers[p] == Outside && k < |s.pushed|
      && t == s.(pushed := s.pushed[k := s.pushed[k] + 1], producers := s.producers[p := Published])
    case LoadFlag(p) =>
      && p in s.producers && s.producers[p] == Published
      && t == s.(producers := s.producers[p := if s.sleeping then SawSleeping else Outside])
    case LowerFlag(p) =>
      && p in s.producers && s.producers[p] == SawSleeping
      && t == s.(sleeping := false, producers := s.producers[p := if s.sleeping then Lowered else Outside])
    case ReleasePermit(p) =>
      && p in s.producers && s.producers[p] == Lowered
      && t == s.(permits := s.permits + 1, producers := s.producers[p := Outside])
    case Consume(k) =>
      && s.worker == Awake && k < |s.pushed| && k < |s.popped| && s.popped[k] < s.pushed[k]
      && t == s.(popped := s.popped[k := s.popped[k] + 1])
    case RaiseFlag =>
      s.worker == Awake && t == s.(sleeping := true, worker := Checking(0))
    case CheckSource =>
      && s.worker.Checking? && s.worker.next < |s.pushed| && s.worker.next < |s.popped|
      && var k := s.worker.next;
         t == s.(worker := if s.pushed[k] != s.popped[k] then Leaving else Checking(k + 1))
    case Block =>
      s.worker.Checking? && s.worker.next == |s.pushed| && t == s.(worker := Blocking)
    case AcquirePermit =>
      s.worker == Blocking && s.permits > 0 && t == s.(permits := s.permits - 1, worker := Leaving)
    case Leave =>
      s.worker == Leaving && t == s.(sleeping := false, worker := Awake)
  }

  /** A producer that has published and whose notify will still see the worker. */
  predicate WillNotify(s: State, p: nat) {
    && p in s.producers
    && (s.producers[p] == Lowered || (s.sleeping && s.producers[p] in {Published, SawSleeping}))
  }

  ghost predicate WakeComing(s: State) {
    s.permits > 0 || exists p :: WillNotify(s, p)
  }

  /** How many sources the worker has found empty since it raised the flag. */
  function Checked(s: State): nat {
    match s.worker
    case Checking(k) => k
    case Blocking => |s.pushed|
    case _ => 0
  }

  predicate GoingToSleep(s: State) {
    s.worker.Checking? || s.worker.Blocking?
  }

  ghost predicate HasLowered(s: State) {
    s.permits > 0 || exists p :: p in s.producers && s.producers[p] == Lowered
  }

  ghost predicate Inv(s: State) {
    && |s.pushed| == |s.popped|
    && (forall k :: 0 <= k < |s.pushed| ==> s.popped[k] <= s.pushed[k])
    && Checked(s) <= |s.pushed|
    // a flag lowered under a worker on its way to sleep means a permit
    && (GoingToSleep(s) && !s.sleeping ==> HasLowered(s))
    // work that arrived behind the worker's back means a wake-up
    && (GoingToSleep(s) && (exists k :: 0 <= k < Checked(s) && s.popped[k] < s.pushed[k]) ==> WakeComing(s))
  }

  lemma LoweredIsComing(s: State)
    requires HasLowered(s)
    ensures WakeComing(s)
  {
    if s.permits == 0 {
      var p :| p in s.producers && s.producers[p] == Lowered;
      assert WillNotify(s, p);
    }
  }

  /** A producer leaving on a lowered flag, or lowering it, leaves a permit on its way. */
  lemma LoweredStays(s: State, t: State, step: Step)
    requires Inv(s) && Next(s, t, step) && GoingToSleep(t) && !t.sleeping
    ensures HasLowered(t)
  {
    if step.LowerFlag? && s.sleeping {
      assert t.producers[step.p] == Lowered;
    } else if !s.sleeping && s.permits == 0 && !step.ReleasePermit? {
      var w :| w in s.producers && s.producers[w] == Lowered;
      assert t.producers[w] == Lowered;
    }
  }

  lemma WakeStays(s: State, t: State, step: Step)
    requires Inv(s) && Next(s, t, step) && GoingToSleep(t)
    requires exists k :: 0 <= k < Checked(t) && t.popped[k] < t.pushed[k]
    ensures WakeComing(t)
  {
    if !t.sleeping {
      LoweredStays(s, t, step);
      LoweredIsComing(t);
    } else if step.Publish? {
      assert WillNotify(t, step.p);
    } else {
      var k :| 0 <= k < Checked(t) && t.popped[k] < t.pushed[k];
      assert k < Checked(s) && s.popped[k] < s.pushed[k];
      if s.permits == 0 {
        var w :| WillNotify(s, w);
        assert !step.ReleasePermit? ==> WillNotify(t, w);
      }
    }
  }

  lemma NextInv(s: State, t: State, step: Step)
    requires Inv(s) && Next(s, t, step)
    ensures Inv(t)
  {
    if GoingToSleep(t) && !t.sleeping {
      LoweredStays(s, t, step);
    }
    if GoingToSleep(t) && exists k :: 0 <= k < Checked(t) && t.popped[k] < t.pushed[k] {
      WakeStays(s, t, step);
    }
  }

  ghost predicate Run(trace: seq<State>, steps: seq<Step>) {
    && |trace| == |steps| + 1
    && Init(trace[0])
    && forall i {:trigger steps[i]} :: 0 <= i < |steps| ==> Next(trace[i], trace[i + 1], steps[i])
  }

  lemma {:induction false} RunInv(trace: seq<State>, steps: seq<Step>, i: nat)
    requires Run(trace, steps) && i < |trace|
    ensures Inv(trace[i])
  {
    if i > 0 {
      RunInv(trace, steps, i - 1);
      NextInv(trace[i - 1], trace[i], steps[i - 1]);
    }
  }

  /**
   No lost wake-up: whenever the worker is blocked without a permit and a source
   holds work, some producer is still between its publish and the end of its notify.
   */
  lemma NoLostWakeup(trace: seq<State>, steps: seq<Step>, i: nat, k: nat)
    requires Run(trace, steps) && i < |trace|
    requires trace[i].worker == Blocking && trace[i].permits == 0
    requires k < |trace[i].pushed| && k < |trace[i].popped| && trace[i].pushed[k] != trace[i].popped[k]
    ensures exists p :: p in trace[i].producers && trace[i].producers[p] != Outside
  {
    RunInv(trace, steps, i);
    var p :| WillNotify(trace[i], p);
  }

  /** So once every producer has returned, a blocked worker without a permit has nothing to do. */
  lemma BlockedMeansIdle(trace: seq<State>, steps: seq<Step>, i: nat)
    requires Run(trace, steps) && i < |trace|
    requires trace[i].worker == Blocking && trace[i].permits == 0
    requires forall p :: p in trace[i].producers ==> trace[i].producers[p] == Outside
    ensures trace[i].pushed == trace[i].popped
  {
    RunInv(trace, steps, i);
    if trace[i].pushed != trace[i].popped {
      var k :| 0 <= k < |trace[i].pushed| && trace[i].pushed[k] != trace[i].popped[k];
      NoLostWakeup(trace, steps, i, k);
    }
  }
}
