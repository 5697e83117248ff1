/**
 The configuration store: updates build a new snapshot under the write lock, a saver
 thread persists snapshots with the lock released, and callers flush or stop.
 The persist call answers as it likes.  Each step is one section under the write lock,
 or the persist call between two sections.
 */
module ConfigStore {

  import opened Basics

  type Config(!new, ==)

  // ---------- the retry delay ----------

  const FIRST_RETRY_DELAY := 250
  const LAST_RETRY_DELAY := 30000

  /** Doubling from the first delay, capped at the last. */
  function RetryDelay(failures: nat): int {
    if failures <= 1 then FIRST_RETRY_DELAY
    else if 2 * RetryDelay(failures - 1) < LAST_RETRY_DELAY then 2 * RetryDelay(failures - 1)
    else LAST_RETRY_DELAY
  }

  method RetryDelayAfter(failures: nat) returns (delay: int)
    ensures delay == RetryDelay(failures)
  {
    delay := FIRST_RETRY_DELAY;
    var attempt := 1;
    while attempt < failures && delay < LAST_RETRY_DELAY
      invariant 1 <= attempt && (attempt <= failures || (attempt == 1 && delay == FIRST_RETRY_DELAY))
      invariant RetryDelay(attempt) == if delay < LAST_RETRY_DELAY then delay else LAST_RETRY_DELAY
    {
      delay := delay * 2;
      attempt := attempt + 1;
    }
    if attempt < failures {
      CappedForGood(attempt, failures);
    }
    delay := if delay < LAST_RETRY_DELAY then delay else LAST_RETRY_DELAY;
  }

  lemma {:induction false} CappedForGood(m: nat, n: nat)
    requires 1 <= m <= n && RetryDelay(m) == LAST_RETRY_DELAY
    ensures RetryDelay(n) == LAST_RETRY_DELAY
  {
    if m < n {
      CappedForGood(m, n - 1);
    }
  }

  function Doubled(x: int, times: nat): int {
    if times == 0 then x else 2 * Doubled(x, times - 1)
  }

  /** After n failures the delay is the first one doubled n - 1 times, or the last one if that is less. */
  lemma {:induction false} RetryDelayIsCappedDoubling(failures: nat)
    requires failures >= 1
    ensures RetryDelay(failures) ==
            if Doubled(FIRST_RETRY_DELAY, failures - 1) < LAST_RETRY_DELAY then Doubled(FIRST_RETRY_DELAY, failures - 1)
            else LAST_RETRY_DELAY
  {
    if failures > 1 {
      RetryDelayIsCappedDoubling(failures - 1);
    } else {
      assert Doubled(FIRST_RETRY_DELAY, 0) == FIRST_RETRY_DELAY;
    }
  }

  /** The delay never shrinks as failures mount and stays between the two bounds. */
  lemma {:induction false} RetryDelayGrows(m: nat, n: nat)
    requires m <= n
    ensures FIRST_RETRY_DELAY <= RetryDelay(m) <= RetryDelay(n) <= LAST_RETRY_DELAY
    decreases n
  {
    if n > 1 {
      RetryDelayGrows(if m < n then m else n - 1, n - 1);
    }
  }

  // ---------- the store ----------

  datatype Saver =
    | Watching                                                 // waiting for something to save
    | Delaying                                                 // letting updates gather
    | Saving(generation: nat, snapshot: Config, last: bool)    // lock released, persist under way
    | Answered(generation: nat, last: bool, saved: bool)       // persist returned, lock not yet taken
    | BackingOff
    | Exited

  datatype Flusher = Idle | Wanting(generation: nat) | Answer(generation: nat, saved: bool)

  /**
   `updates` records every accepted update in order, `saves` every successful persist,
   `lastPersist` the outcome of the latest persist call, `stopGeneration` the generation
   when the store was told to stop.
   */
  datatype State = State(
    snapshot: Config,
    generation: nat,
    persisted: nat,
    stopping: bool,
    failures: nat,
    saver: Saver,
    flushers: map<nat, Flusher>,
    initial: Config,
    updates: seq<Config -> Config>,
    saves: seq<(nat, Config)>,
    lastPersist: Option<bool>,
    stopGeneration: nat)

  datatype Step =
    | Update(mutate: Config -> Config)
    | UpdateDeclined
    | Notice
    | StartSaving
    | Persist(saved: bool)
    | Settle
    | BackOffOver
    | Stop
    | CallFlush(f: nat)
    | AnswerFlush(f: nat)

  ghost predicate Init(s: State) {
    && s.snapshot == s.initial && s.generation == 0 && s.persisted == 0 && !s.stopping && s.failures == 0
    && s.saver == Watching && s.updates == [] && s.saves == [] && s.lastPersist == None
    && s.stopGeneration == 0
    && forall f :: f in s.flushers ==> s.flushers[f] == Idle
  }

  ghost predicate Next(s: State, t: State, step: Step) {
    match step
    case Update(mutate) =>   // copy, change, publish; the write lock is held throughout
      t == s.(snapshot := mutate(s.snapshot), generation := s.generation + 1, updates := s.updates + [mutate])
    case UpdateDeclined => t == s
    case Notice =>
      && s.saver == Watching && (s.stopping || s.generation != s.persisted)
      && t == s.(saver := if s.generation == s.persisted then Exited else Delaying)
    case StartSaving =>   // at once after a failure, else when the delay ends or is cut short
      s.saver == Delaying && t == s.(saver := Saving(s.generation, s.snapshot, s.stopping))
    case Persist(saved) =>
      && s.saver.Saving?
      && var Saving(g, c, last) := s.saver;
         t == s.(saver := Answered(g, last, saved), lastPersist := Some(saved),
                 saves := if saved then s.saves + [(g, c)] else s.saves)
    case Settle =>
      && s.saver.Answered?
      && var Answered(g, last, saved) := s.saver;
         t == if saved then s.(persisted := g, failures := 0, saver := if last then Exited else Watching)
              else s.(failures := s.failures + 1, saver := if s.stopping then Exited else BackingOff)
    case BackOffOver => s.saver == BackingOff && t == s.(saver := Watching)
    case Stop =>
      t == s.(stopping := true, stopGeneration := if s.stopping then s.stopGeneration else s.generation)
    case CallFlush(f) =>
      && f in s.flushers && s.flushers[f] == Idle
      && t == s.(flushers := s.flushers[f := Wanting(s.generation)])
    case AnswerFlush(f) =>
      && f in s.flushers && s.flushers[f].Wanting?
      && var g := s.flushers[f].generation;
         t == s.(flushers := s.flushers[f := Answer(g, s.persisted >= g)])
  }

  // ---------- the invariant ----------

  /** The snapshot after a series of updates. */
  function Applied(updates: seq<Config -> Config>, c: Config): Config {
    if updates == [] then c
    else updates[|updates| - 1](Applied(updates[..|updates| - 1], c))
  }

  /** `c` is the snapshot of generation `g`: every update up to `g`, in order, and no other. */
  ghost predicate IsGeneration(s: State, g: nat, c: Config) {
    g <= |s.updates| && c == Applied(s.updates[..g], s.initial)
  }

  /** The generation the last successful persist wrote; zero before the first. */
  function LastSaved(s: State): nat {
    if s.saves == [] then 0 else s.saves[|s.saves| - 1].0
  }

  ghost predicate SaverOk(s: State) {
    match s.saver
    case Saving(g, c, last) =>
      && IsGeneration(s, g, c) && s.persisted <= g && LastSaved(s) == s.persisted
      && (last ==> s.stopping && s.stopGeneration <= g)
    case Answered(g, last, saved) =>
      && g <= s.generation && s.persisted <= g && s.lastPersist == Some(saved)
      && LastSaved(s) == (if saved then g else s.persisted) && (last ==> s.stopping && s.stopGeneration <= g)
    case Exited =>
      && LastSaved(s) == s.persisted
      && s.stopping && (s.persisted >= s.stopGeneration || s.lastPersist == Some(false))
    case _ => LastSaved(s) == s.persisted
  }

  /** Each save is its generation's snapshot, and a later save is never of an earlier generation. */
  ghost predicate SavesOk(s: State) {
    && (forall i :: 0 <= i < |s.saves| ==> IsGeneration(s, s.saves[i].0, s.saves[i].1))
    && (forall i, j :: 0 <= i < j < |s.saves| ==> s.saves[i].0 <= s.saves[j].0)
  }

  ghost predicate FlushersOk(s: State) {
    forall f :: f in s.flushers ==>
      match s.flushers[f]
      case Idle => true
      case Wanting(g) => g <= s.generation
      case Answer(g, saved) => g <= s.generation && (saved ==> g <= LastSaved(s))
  }

  ghost predicate Inv(s: State) {
    && s.generation == |s.updates| && s.persisted <= s.generation && s.stopGeneration <= s.generation
    && s.snapshot == Applied(s.updates, s.initial)
    && SavesOk(s) && SaverOk(s) && FlushersOk(s)
  }

  lemma UpdateInv(s: State, t: State, mutate: Config -> Config)
    requires Inv(s) && Next(s, t, Update(mutate))
    ensures Inv(t)
  {
    assert t.updates[..|s.updates|] == s.updates;
    assert forall g :: 0 <= g <= |s.updates| ==> t.updates[..g] == s.updates[..g];
  }

  lemma PersistInv(s: State, t: State, saved: bool)
    requires Inv(s) && Next(s, t, Persist(saved))
    ensures Inv(t)
  {
    assert s.saves <= t.saves && LastSaved(s) <= LastSaved(t);
  }

  lemma SaverInv(s: State, t: State, step: Step)
    requires Inv(s) && Next(s, t, step)
    requires step.Notice? || step.StartSaving? || step.Settle? || step.BackOffOver?
    ensures Inv(t)
  {
    assert s.updates[..|s.updates|] == s.updates;
  }

  lemma StopInv(s: State, t: State)
    requires Inv(s) && Next(s, t, Stop)
    ensures Inv(t)
  {
  }

  lemma FlushInv(s: State, t: State, step: Step)
    requires Inv(s) && Next(s, t, step) && (step.CallFlush? || step.AnswerFlush?)
    ensures Inv(t)
  {
    assert s.persisted <= LastSaved(s);
  }

  ghost predicate Run(trace: seq<State>, steps: seq<Step>) {
    && |trace| == |steps| + 1
    && Init(trace[0])
    && forall i {:trigger steps[i]} :: 0 <= i < |steps| ==> Next(trace[i], trace[i + 1], steps[i])
  }

  lemma {:induction false} RunInv(trace: seq<State>, steps: seq<Step>, i: nat)
    requires Run(trace, steps) && i < |trace|
    ensures Inv(trace[i])
  {
    if i > 0 {
      RunInv(trace, steps, i - 1);
      var step := steps[i - 1];
      if step.Update? {
        UpdateInv(trace[i - 1], trace[i], step.mutate);
      } else if step.Persist? {
        PersistInv(trace[i - 1], trace[i], step.saved);
      } else if step.Stop? {
        StopInv(trace[i - 1], trace[i]);
      } else if step.CallFlush? || step.AnswerFlush? {
        FlushInv(trace[i - 1], trace[i], step);
      } else if !step.UpdateDeclined? {
        SaverInv(trace[i - 1], trace[i], step);
      }
    }
  }

  /** The accepted updates of a run, in order. */
  function UpdatesIn(steps: seq<Step>): seq<Config -> Config> {
    if steps == [] then []
    else
      var last := steps[|steps| - 1];
      UpdatesIn(steps[..|steps| - 1]) + (if last.Update? then [last.mutate] else [])
  }

  /** Updates form one chain: the snapshot is every accepted update applied in turn, none lost. */
  lemma {:induction false} UpdatesFormOneChain(trace: seq<State>, steps: seq<Step>, i: nat)
    requires Run(trace, steps) && i < |trace|
    ensures trace[i].initial == trace[0].initial
    ensures trace[i].updates == UpdatesIn(steps[..i])
    ensures trace[i].snapshot == Applied(UpdatesIn(steps[..i]), trace[0].initial)
  {
    RunInv(trace, steps, i);
    if i > 0 {
      UpdatesFormOneChain(trace, steps, i - 1);
      assert Next(trace[i - 1], trace[i], steps[i - 1]);
      assert steps[..i][..i - 1] == steps[..i - 1];
    }
  }

  lemma {:induction false} WantedKept(trace: seq<State>, steps: seq<Step>, i: nat, j: nat, f: nat, g: nat)
    requires Run(trace, steps) && i <= j < |trace|
    requires f in trace[i].flushers && trace[i].flushers[f] == Wanting(g)
    ensures f in trace[j].flushers && trace[j].flushers[f] in {Wanting(g), Answer(g, true), Answer(g, false)}
    decreases j
  {
    if i < j {
      WantedKept(trace, steps, i, j - 1, f, g);
      assert Next(trace[j - 1], trace[j], steps[j - 1]);
    }
  }

  lemma {:induction false} UpdatesGrow(trace: seq<State>, steps: seq<Step>, i: nat, j: nat)
    requires Run(trace, steps) && i <= j < |trace|
    ensures trace[i].updates <= trace[j].updates
    decreases j
  {
    if i < j {
      UpdatesGrow(trace, steps, i, j - 1);
      assert Next(trace[j - 1], trace[j], steps[j - 1]);
    }
  }

  /** The last successful persist wrote a snapshot with all the given updates; or there are none. */
  ghost predicate OnDisk(s: State, updates: seq<Config -> Config>) {
    updates == [] ||
    (s.saves != [] &&
     var (g, c) := s.saves[|s.saves| - 1];
     |updates| <= g <= |s.updates| && updates <= s.updates[..g] && c == Applied(s.updates[..g], s.initial))
  }

  lemma SavedIsOnDisk(s: State, updates: seq<Config -> Config>)
    requires SavesOk(s) && updates <= s.updates && |updates| <= LastSaved(s)
    ensures OnDisk(s, updates)
  {
    if updates != [] {
      assert IsGeneration(s, s.saves[|s.saves| - 1].0, s.saves[|s.saves| - 1].1);
    }
  }

  /** In every run, no persist ever writes an earlier generation than one before it. */
  lemma SavesNeverFall(trace: seq<State>, steps: seq<Step>, n: nat, i: nat, j: nat)
    requires Run(trace, steps) && n < |trace| && i < j < |trace[n].saves|
    ensures trace[n].saves[i].0 <= trace[n].saves[j].0 <= trace[n].generation
  {
    RunInv(trace, steps, n);
    assert IsGeneration(trace[n], trace[n].saves[j].0, trace[n].saves[j].1);
  }

  /**
   A flush that returned true: the snapshot last persisted contains every update made
   before the call.
   */
  lemma FlushMeansSaved(trace: seq<State>, steps: seq<Step>, i: nat, j: nat, f: nat)
    requires Run(trace, steps) && i < |steps| && i < j < |trace|
    requires steps[i] == CallFlush(f) && f in trace[j].flushers
    requires trace[j].flushers[f].Answer? && trace[j].flushers[f].saved
    ensures trace[i].updates <= trace[j].updates && OnDisk(trace[j], trace[i].updates)
  {
    RunInv(trace, steps, i);
    RunInv(trace, steps, j);
    assert Next(trace[i], trace[i + 1], steps[i]);
    WantedKept(trace, steps, i + 1, j, f, trace[i].generation);
    UpdatesGrow(trace, steps, i, j);
    SavedIsOnDisk(trace[j], trace[i].updates);
  }

  /** A successful persist of generation `g` or later is taken note of here. */
  predicate NotesSave(s: State, step: Step, g: nat) {
    step == Settle && s.saver.Answered? && s.saver.saved && s.saver.generation >= g
  }

  lemma PersistedStep(s: State, t: State, step: Step, g: nat)
    requires Inv(s) && Next(s, t, step)
    ensures t.persisted >= g <==> s.persisted >= g || NotesSave(s, step, g)
  {
  }

  /** A generation counts as persisted exactly once a successful persist of it or of a later one was noted. */
  lemma {:induction false} PersistedIff(trace: seq<State>, steps: seq<Step>, j: nat, g: nat)
    requires Run(trace, steps) && j < |trace| && g > 0
    ensures trace[j].persisted >= g <==> exists k {:trigger steps[k]} :: 0 <= k < j && NotesSave(trace[k], steps[k], g)
  {
    if j > 0 {
      PersistedIff(trace, steps, j - 1, g);
      RunInv(trace, steps, j - 1);
      PersistedStep(trace[j - 1], trace[j], steps[j - 1], g);
    }
  }

  /**
   In every run, a flush answers true if and only if nothing had been updated when it was
   called, or a successful persist with every update made before the call was noted.
   */
  lemma FlushAnswersIff(trace: seq<State>, steps: seq<Step>, i: nat, j: nat, f: nat)
    requires Run(trace, steps) && i < j < |steps| && steps[i] == CallFlush(f) && steps[j] == AnswerFlush(f)
    ensures f in trace[j + 1].flushers && trace[j + 1].flushers[f].Answer?
    ensures trace[j + 1].flushers[f].saved <==>
            trace[i].updates == [] || exists k {:trigger steps[k]} :: 0 <= k < j && NotesSave(trace[k], steps[k], |trace[i].updates|)
  {
    RunInv(trace, steps, i);
    assert Next(trace[i], trace[i + 1], steps[i]);
    WantedKept(trace, steps, i + 1, j, f, trace[i].generation);
    assert Next(trace[j], trace[j + 1], steps[j]);
    if trace[i].updates != [] {
      PersistedIff(trace, steps, j, |trace[i].updates|);
    }
  }

  lemma {:induction false} StopGenerationKept(trace: seq<State>, steps: seq<Step>, i: nat, j: nat)
    requires Run(trace, steps) && i <= j < |trace| && trace[i].stopping
    ensures trace[j].stopping && trace[j].stopGeneration == trace[i].stopGeneration
    decreases j
  {
    if i < j {
      StopGenerationKept(trace, steps, i, j - 1);
      assert Next(trace[j - 1], trace[j], steps[j - 1]);
    }
  }

  /**
   When the saver has exited after the first stop, either the snapshot last persisted
   contains every update completed before that stop, or the last persist call failed.
   */
  lemma StopSavesOrFails(trace: seq<State>, steps: seq<Step>, i: nat, j: nat)
    requires Run(trace, steps) && i < |steps| && i < j < |trace|
    requires steps[i] == Stop && !trace[i].stopping && trace[j].saver == Exited
    ensures OnDisk(trace[j], trace[i].updates) || trace[j].lastPersist == Some(false)
  {
    RunInv(trace, steps, i);
    RunInv(trace, steps, j);
    assert Next(trace[i], trace[i + 1], steps[i]);
    StopGenerationKept(trace, steps, i + 1, j);
    UpdatesGrow(trace, steps, i, j);
    if trace[j].lastPersist != Some(false) {
      SavedIsOnDisk(trace[j], trace[i].updates);
    }
  }
}
