/**
 The updater: nine states and four pending flags under one lock, shared by one worker
 and any number of request callers.  Each section under the lock is a function on the
 shared fields and a method of the class; the worker's blocking calls (fetch, download,
 verify, apply) happen between sections and answer as they like.
 */
module UpdateService {

  import opened Basics
  import Semver

  datatype UpdateState =
    Idle | Checking | UpToDate | UpdateAvailable | Downloading | Verifying | Downloaded | Installing | Error

  /** What identifies an installer: version, asset name and digest. */
  datatype Installer = Installer(version: string, assetName: string, digest: string)

  const NO_INSTALLER := Installer("", "", "")

  datatype Info = Info(available: bool, installer: Installer, manual: bool)

  const NO_INFO := Info(false, NO_INSTALLER, false)

  datatype Shared = Shared(
    state: UpdateState,
    info: Info,
    failedPhase: UpdateState,
    path: string,
    staged: Installer,
    userInitiated: bool,
    pendingCheck: bool,
    pendingDownload: bool,
    repairPending: bool,
    pendingInstall: bool)

  predicate WorkInFlight(state: UpdateState) {
    state.Checking? || state.Downloading? || state.Verifying? || state.Installing?
  }

  function FailedCheckState(userInitiated: bool, knownIsStaged: bool, knownIsNewer: bool): UpdateState {
    if userInitiated then Error
    else if knownIsStaged then Downloaded
    else if knownIsNewer then UpdateAvailable
    else Error
  }

  // ---------- the sections under the lock ----------

  function Enter(m: Shared, state: UpdateState): Shared {
    m.(state := state, failedPhase := Idle)
  }

  function AcceptCheck(m: Shared, user: bool): Shared {
    Enter(m.(pendingCheck := true, userInitiated := user), Checking)
  }

  function AcceptDownload(m: Shared): Shared {
    Enter(m.(pendingDownload := true), Downloading)
  }

  function AcceptInstall(m: Shared): Shared {
    Enter(m.(pendingInstall := true, repairPending := false), Installing)
  }

  function AbandonDownload(m: Shared): Shared {
    Enter(m, if m.info.available then UpdateAvailable else Idle)
  }

  predicate CheckQueued(m: Shared) {
    m.pendingCheck || m.state.Checking?
  }

  predicate CheckSuperseded(m: Shared) {
    !m.state.Checking? || m.pendingCheck
  }

  predicate IsStaged(m: Shared, info: Info) {
    m.staged.version != "" && info.installer == m.staged
  }

  function RequestCheck(m: Shared, user: bool): Shared {
    if CheckQueued(m) then (if user then m.(userInitiated := true) else m)
    else if WorkInFlight(m.state) then m
    else AcceptCheck(m, user)
  }

  function RequestDownload(m: Shared): Shared {
    if m.state in {UpdateAvailable, Error} && m.info.available && !m.info.manual then AcceptDownload(m) else m
  }

  function RequestRepair(m: Shared): Shared {
    if m.info.manual then m
    else if CheckQueued(m) then m.(repairPending := true, userInitiated := true)
    else if WorkInFlight(m.state) || m.state.Downloaded? then m
    else
      var r := m.(repairPending := true);
      if m.info.installer.version == "" then AcceptCheck(r, true) else AcceptDownload(r)
  }

  function RequestInstall(m: Shared): Shared {
    if (m.state.Downloaded? || (m.state.Error? && m.failedPhase.Installing?)) && IsStaged(m, m.info)
    then AcceptInstall(m) else m
  }

  function CancelInFlight(m: Shared): Shared {
    if m.pendingDownload then AbandonDownload(m.(pendingDownload := false, repairPending := false)) else m
  }

  function SkipVersion(m: Shared, version: string): Shared {
    var r := if m.info.installer.version == version then Enter(m.(info := NO_INFO), Idle) else m;
    if r.staged.version == version then r.(staged := NO_INSTALLER) else r
  }

  datatype Job = Install | Download | Check

  predicate AnyPending(m: Shared) {
    m.pendingCheck || m.pendingDownload || m.pendingInstall
  }

  /** Install outranks download outranks check. */
  function TakeJob(m: Shared): (Shared, Job) {
    if m.pendingInstall then (m.(pendingInstall := false), Install)
    else if m.pendingDownload then (m.(pendingDownload := false), Download)
    else (Enter(m.(pendingCheck := false), Checking), Check)
  }

  function SettleCheck(m: Shared, info: Info): Shared {
    if CheckSuperseded(m) then m
    else
      Enter(m.(info := info),
            if IsStaged(m, info) then Downloaded else if info.available then UpdateAvailable else UpToDate)
  }

  function SettleFailedCheck(m: Shared): Shared {
    if CheckSuperseded(m) then m
    else
      var settled := FailedCheckState(m.userInitiated, IsStaged(m, m.info), m.info.available);
      var r := Enter(m, settled);
      if settled.Error? then r.(failedPhase := Checking) else r
  }

  function QueueDownload(m: Shared, fetched: bool, autoDownload: bool): Shared {
    if WorkInFlight(m.state) then m
    else
      var offered := fetched && m.state.UpdateAvailable? && !m.info.manual;
      var usable := fetched && !m.state.Downloaded? && m.info.installer.version != "" && !m.info.manual;
      var wanted := m.repairPending && usable;
      var r := m.(repairPending := wanted);
      if (autoDownload && offered) || wanted then AcceptDownload(r) else r
  }

  /** Whether a download begins here, and the fields after. */
  function BeginDownload(m: Shared): (Shared, bool) {
    if m.pendingCheck then (m, false)
    else
      var r := m.(repairPending := false);
      if !m.info.available && !m.repairPending then (AbandonDownload(r), false)
      else if m.info.manual then (AbandonDownload(r), false)
      else (Enter(r.(staged := NO_INSTALLER), Downloading), true)
  }

  function DownloadFailed(m: Shared, cancelled: bool): Shared {
    if !m.state.Downloading? then m
    else if cancelled then AbandonDownload(m)
    else m.(state := Error, failedPhase := Downloading)
  }

  function DownloadDone(m: Shared, path: string): Shared {
    if m.state.Downloading? then m.(path := path, state := Verifying) else m
  }

  function VerifyFailed(m: Shared): Shared {
    if m.state.Verifying? then m.(state := Error, failedPhase := Verifying) else m
  }

  function VerifyDone(m: Shared, installer: Installer, autoInstall: bool): Shared {
    if !m.state.Verifying? then m
    else
      var r := m.(state := Downloaded, staged := installer);
      if autoInstall then AcceptInstall(r) else r
  }

  function ApplyFailed(m: Shared): Shared {
    if m.state.Installing? then m.(state := Error, failedPhase := Installing) else m
  }

  // ---------- what a check offers ----------

  /** A fetched release is offered when it is newer than ours and above any skipped version. */
  ghost predicate Offered(version: string, current: string, skipped: string) {
    Semver.SemverOrder(version, current) > 0 && (skipped == "" || Semver.SemverOrder(version, skipped) > 0)
  }

  method DecideCheck(version: string, current: string, skipped: string) returns (available: bool, target: UpdateState)
    ensures available <==> Offered(version, current, skipped)
    ensures target == if available then UpdateAvailable else UpToDate
  {
    var order := Semver.CompareSemver(version, current);
    if !(order > 0) {
      return false, UpToDate;
    }
    if skipped != "" {
      order := Semver.CompareSemver(version, skipped);
      if order <= 0 {
        return false, UpToDate;
      }
    }
    return true, UpdateAvailable;
  }

  /** Skipping an offered version leaves exactly the versions above it on offer. */
  lemma SkipLeavesLaterVersions(current: string, skipped: string, version: string, later: string)
    requires version != "" && Offered(version, current, skipped)
    ensures Offered(later, current, version) <==> Semver.SemverOrder(later, version) > 0
  {
    Semver.SemverOrderIsTotalPreorder();
    var order := Semver.SemverOrder;
    assert order(later, current) <= 0 && order(current, version) <= 0 ==> order(later, version) <= 0;
    assert order(current, version) == -order(version, current);
  }

  // ---------- the system ----------

  datatype Worker =
    | Waiting
    | Fetching
    | Fetched(info: Info)
    | FetchFailed
    | Queueing(fetched: bool)
    | StartingDownload
    | Loading(info: Info)
    | Loaded(path: string)
    | LoadFailed(cancelled: bool)
    | StartingVerify
    | Checksumming(info: Info, path: string)
    | ChecksumOk(info: Info, path: string)
    | ChecksumBad
    | StartingInstall
    | Applying(info: Info, path: string)
    | ApplyBad

  /**
   `verified` is the path and installer `verifyArtifact` last accepted, forgotten when a
   download begins; `applied` says that `applyUpdate` has succeeded since the install was accepted.
   */
  datatype System = System(m: Shared, worker: Worker, verified: Option<(string, Installer)>, applied: bool)

  datatype Step =
    | DoRequestCheck(user: bool)
    | DoRequestDownload
    | DoRequestRepair
    | DoRequestInstall
    | DoCancel
    | DoSkip(version: string)
    | DoTakeJob
    | FetchReturns(fetched: Option<Info>)
    | DoSettleCheck
    | DoQueueDownload(autoDownload: bool)
    | DoBeginDownload
    | DownloadReturns(artifact: Option<string>, cancelled: bool)
    | DoSettleDownload
    | DoStartVerify
    | VerifyReturns(ok: bool)
    | DoSettleVerify(autoInstall: bool)
    | DoStartInstall
    | ApplyReturns(ok: bool)
    | DoSettleApply

  predicate Init(s: System) {
    && s.m == Shared(Idle, NO_INFO, Idle, "", NO_INSTALLER, false, false, false, false, false)
    && s.worker == Waiting && s.verified == None && !s.applied
  }

  /** A request section: it runs at any time the lock is free. */
  predicate Requested(s: System, t: System, m: Shared) {
    t == s.(m := m, applied := s.applied && (m.state != Installing || s.m.state == Installing))
  }

  predicate Next(s: System, t: System, step: Step) {
    match step
    case DoRequestCheck(user) => Requested(s, t, RequestCheck(s.m, user))
    case DoRequestDownload => Requested(s, t, RequestDownload(s.m))
    case DoRequestRepair => Requested(s, t, RequestRepair(s.m))
    case DoRequestInstall => Requested(s, t, RequestInstall(s.m))
    case DoCancel => Requested(s, t, CancelInFlight(s.m))
    case DoSkip(version) => Requested(s, t, SkipVersion(s.m, version))
    case DoTakeJob =>
      && s.worker == Waiting && AnyPending(s.m)
      && var (m, job) := TakeJob(s.m);
         t == s.(m := m, worker := match job
                                   case Install => StartingInstall
                                   case Download => StartingDownload
                                   case Check => Fetching)
    case FetchReturns(result) =>
      && s.worker == Fetching
      && t == s.(worker := if result.Some? then Fetched(result.value) else FetchFailed)
    case DoSettleCheck =>
      || (s.worker.Fetched? && t == s.(m := SettleCheck(s.m, s.worker.info), worker := Queueing(true)))
      || (s.worker.FetchFailed? && t == s.(m := SettleFailedCheck(s.m), worker := Queueing(false)))
    case DoQueueDownload(autoDownload) =>
      && s.worker.Queueing?
      && t == s.(m := QueueDownload(s.m, s.worker.fetched, autoDownload), worker := Waiting)
    case DoBeginDownload =>
      && s.worker == StartingDownload
      && var (m, begun) := BeginDownload(s.m);
         t == if begun then s.(m := m, worker := Loading(s.m.info), verified := None)
              else s.(m := m, worker := Waiting)
    case DownloadReturns(result, cancelled) =>
      && s.worker.Loading?
      && t == s.(worker := if result.Some? then Loaded(result.value) else LoadFailed(cancelled))
    case DoSettleDownload =>
      || (s.worker.Loaded?
          && t == s.(m := DownloadDone(s.m, s.worker.path),
                     worker := if s.m.state.Downloading? then StartingVerify else Waiting))
      || (s.worker.LoadFailed? && t == s.(m := DownloadFailed(s.m, s.worker.cancelled), worker := Waiting))
    case DoStartVerify =>
      s.worker == StartingVerify && t == s.(worker := Checksumming(s.m.info, s.m.path))
    case VerifyReturns(ok) =>
      && s.worker.Checksumming?
      && t == if ok then s.(worker := ChecksumOk(s.worker.info, s.worker.path),
                            verified := Some((s.worker.path, s.worker.info.installer)))
              else s.(worker := ChecksumBad)
    case DoSettleVerify(autoInstall) =>
      || (s.worker.ChecksumOk?
          && var m := VerifyDone(s.m, s.worker.info.installer, autoInstall);
             t == s.(m := m, worker := Waiting, applied := s.applied && m.state == s.m.state))
      || (s.worker.ChecksumBad? && t == s.(m := VerifyFailed(s.m), worker := Waiting))
    case DoStartInstall =>
      && s.worker == StartingInstall
      && t == s.(worker := if s.m.state.Installing? then Applying(s.m.info, s.m.path) else Waiting)
    case ApplyReturns(ok) =>
      && s.worker.Applying?
      && t == if ok then s.(worker := Waiting, applied := true) else s.(worker := ApplyBad)
    case DoSettleApply =>
      s.worker.ApplyBad? && t == s.(m := ApplyFailed(s.m), worker := Waiting)
  }

  // ---------- only verified artifacts are applied ----------

  predicate DownloadPhase(w: Worker) {
    w.Loading? || w.Loaded? || w.LoadFailed? || w.StartingVerify? || w.Checksumming? || w.ChecksumOk? || w.ChecksumBad?
  }

  predicate Safe(s: System) {
    && (s.m.state.Installing? ==> s.verified == Some((s.m.path, s.m.info.installer)))
    && (s.m.staged.version != "" ==> s.verified == Some((s.m.path, s.m.staged)))
    && (s.worker.Applying? ==> s.verified == Some((s.worker.path, s.worker.info.installer)))
    && (DownloadPhase(s.worker) ==> s.m.staged.version == "" && !s.m.state.Installing?)
    && (s.m.state.Verifying? ==>
          s.worker.StartingVerify? || s.worker.Checksumming? || s.worker.ChecksumOk? || s.worker.ChecksumBad?)
    && (s.worker.Checksumming? || s.worker.ChecksumOk? ==>
          s.m.path == s.worker.path && (s.m.state.Verifying? ==> s.m.info == s.worker.info))
    && (s.worker.ChecksumOk? ==> s.verified == Some((s.worker.path, s.worker.info.installer)))
  }

  /** The steps by who takes them: callers that queue work, callers that act on work queued, ... */
  predicate Queues(step: Step) {
    step.DoRequestCheck? || step.DoRequestDownload? || step.DoRequestRepair?
  }

  predicate Acts(step: Step) {
    step.DoRequestInstall? || step.DoCancel?
  }

  /** ... the worker's sections around a check, its other sections, ... */
  predicate Checks(step: Step) {
    step.DoTakeJob? || step.DoSettleCheck? || step.DoQueueDownload?
  }

  predicate Works(step: Step) {
    || step.DoBeginDownload? || step.DoSettleDownload? || step.DoStartVerify? || step.DoSettleVerify?
    || step.DoStartInstall? || step.DoSettleApply?
  }

  /** ... and the blocking calls that return to it. */
  predicate Returns(step: Step) {
    step.FetchReturns? || step.DownloadReturns? || step.VerifyReturns? || step.ApplyReturns?
  }

  lemma SafeQueues(s: System, t: System, step: Step)
    requires Safe(s) && Next(s, t, step) && Queues(step)
    ensures Safe(t)
  {
  }

  lemma SafeActs(s: System, t: System, step: Step)
    requires Safe(s) && Next(s, t, step) && Acts(step)
    ensures Safe(t)
  {
  }

  /** Giving work up is always safe. */
  lemma SafeGivingUp(s: System, t: System)
    requires Safe(s) && t.worker == s.worker && t.verified == s.verified && t.m.path == s.m.path
    requires t.m.staged.version == "" || t.m.staged == s.m.staged
    requires t.m.state.Idle? || (t.m.state == s.m.state && t.m.info == s.m.info)
    ensures Safe(t)
  {
  }

  lemma SafeSkip(s: System, t: System, step: Step)
    requires Safe(s) && Next(s, t, step) && step.DoSkip?
    ensures Safe(t)
  {
    SafeGivingUp(s, t);
  }

  lemma SafeChecks(s: System, t: System, step: Step)
    requires Safe(s) && Next(s, t, step) && Checks(step)
    ensures Safe(t)
  {
  }

  lemma SafeWorks(s: System, t: System, step: Step)
    requires Safe(s) && Next(s, t, step) && Works(step)
    ensures Safe(t)
  {
  }

  lemma SafeReturns(s: System, t: System, step: Step)
    requires Safe(s) && Next(s, t, step) && Returns(step)
    ensures Safe(t)
  {
  }

  // ---------- an idle worker leaves no work stranded ----------

  predicate CheckPhase(w: Worker) {
    w.Fetching? || w.Fetched? || w.FetchFailed?
  }

  predicate LoadPhase(w: Worker) {
    w.StartingDownload? || w.Loading? || w.Loaded? || w.LoadFailed?
  }

  /** Where a skipped version leaves the fields, up to a check accepted since. */
  predicate Skipped(m: Shared) {
    (m.state.Idle? || (m.state.Checking? && m.pendingCheck)) && m.info == NO_INFO
  }

  predicate Settled(s: System) {
    // every state of work in flight has someone working on it, or about to
    && (s.m.state.Checking? ==> s.m.pendingCheck || CheckPhase(s.worker))
    && (s.m.state.Downloading? ==> s.m.pendingDownload || LoadPhase(s.worker))
    && (s.m.state.Installing? ==>
          s.m.pendingInstall || s.worker.StartingInstall? || s.worker.Applying? || s.worker.ApplyBad? || s.applied)
    // a flag or a job left behind by a skipped version finds nothing to work on
    && (s.m.pendingCheck && !s.m.state.Checking? ==> Skipped(s.m))
    && (s.m.pendingDownload && !s.m.state.Downloading? ==> Skipped(s.m))
    && (CheckPhase(s.worker) ==> !s.m.pendingDownload && (s.m.state.Checking? || Skipped(s.m)))
    && (LoadPhase(s.worker) ==> !s.m.pendingDownload && (s.m.state.Downloading? || Skipped(s.m)))
  }

  lemma SettledQueues(s: System, t: System, step: Step)
    requires Settled(s) && Next(s, t, step) && Queues(step)
    ensures Settled(t)
  {
  }

  lemma SettledActs(s: System, t: System, step: Step)
    requires Settled(s) && Next(s, t, step) && Acts(step)
    ensures Settled(t)
  {
  }

  lemma SettledSkip(s: System, t: System, step: Step)
    requires Settled(s) && Next(s, t, step) && step.DoSkip?
    ensures Settled(t)
  {
    if s.m.info.installer.version == step.version {
      assert t.m.state.Idle? && t.m.info == NO_INFO;
    } else {
      assert t.m == s.m.(staged := t.m.staged);
    }
  }

  lemma SettledChecks(s: System, t: System, step: Step)
    requires Settled(s) && Next(s, t, step) && Checks(step)
    ensures Settled(t)
  {
  }

  lemma SettledWorks(s: System, t: System, step: Step)
    requires Safe(s) && Settled(s) && Next(s, t, step) && Works(step)
    ensures Settled(t)
  {
  }

  lemma SettledReturns(s: System, t: System, step: Step)
    requires Settled(s) && Next(s, t, step) && Returns(step)
    ensures Settled(t)
  {
  }

  lemma NextInv(s: System, t: System, step: Step)
    requires Safe(s) && Settled(s) && Next(s, t, step)
    ensures Safe(t) && Settled(t)
  {
    if Queues(step) {
      SafeQueues(s, t, step);
      SettledQueues(s, t, step);
    } else if Acts(step) {
      SafeActs(s, t, step);
      SettledActs(s, t, step);
    } else if step.DoSkip? {
      SafeSkip(s, t, step);
      SettledSkip(s, t, step);
    } else if Checks(step) {
      SafeChecks(s, t, step);
      SettledChecks(s, t, step);
    } else if Works(step) {
      SafeWorks(s, t, step);
      SettledWorks(s, t, step);
    } else {
      SafeReturns(s, t, step);
      SettledReturns(s, t, step);
    }
  }

  ghost predicate Run(trace: seq<System>, steps: seq<Step>) {
    && |trace| == |steps| + 1
    && Init(trace[0])
    && forall i {:trigger steps[i]} :: 0 <= i < |steps| ==> Next(trace[i], trace[i + 1], steps[i])
  }

  lemma {:induction false} RunInv(trace: seq<System>, steps: seq<Step>, i: nat)
    requires Run(trace, steps) && i < |trace|
    ensures Safe(trace[i]) && Settled(trace[i])
  {
    if i > 0 {
      RunInv(trace, steps, i - 1);
      NextInv(trace[i - 1], trace[i], steps[i - 1]);
    }
  }

  /** A `verified` record stems from an accepting verify with no download begun since. */
  lemma {:induction false} VerifiedSince(trace: seq<System>, steps: seq<Step>, i: nat) returns (a: nat)
    requires Run(trace, steps) && i < |trace| && trace[i].verified.Some?
    ensures a < i && steps[a] == VerifyReturns(true) && trace[a].worker.Checksumming?
    ensures trace[i].verified == Some((trace[a].worker.path, trace[a].worker.info.installer))
    ensures forall b :: a < b < i ==> !(steps[b].DoBeginDownload? && trace[b + 1].worker.Loading?)
  {
    assert Next(trace[i - 1], trace[i], steps[i - 1]);
    if trace[i - 1].verified == trace[i].verified && steps[i - 1] != VerifyReturns(true) {
      a := VerifiedSince(trace, steps, i - 1);
    } else {
      a := i - 1;
    }
  }

  /**
   In every run, whenever `applyUpdate` is called (the worker is Applying) its path was
   accepted by `verifyArtifact` for the same version, asset name and digest, and no
   download has begun since.
   */
  lemma AppliesOnlyVerified(trace: seq<System>, steps: seq<Step>, i: nat) returns (a: nat)
    requires Run(trace, steps) && i < |trace| && trace[i].worker.Applying?
    ensures a < i && steps[a] == VerifyReturns(true) && trace[a].worker.Checksumming?
    ensures trace[a].worker.path == trace[i].worker.path
    ensures trace[a].worker.info.installer == trace[i].worker.info.installer
    ensures forall b :: a < b < i ==> !(steps[b].DoBeginDownload? && trace[b + 1].worker.Loading?)
  {
    RunInv(trace, steps, i);
    a := VerifiedSince(trace, steps, i);
  }

  /**
   In every run, an idle worker with nothing pending never leaves the state at Checking,
   Downloading or Verifying, and leaves it at Installing only after a successful apply.
   */
  lemma IdleIsSettled(trace: seq<System>, steps: seq<Step>, i: nat)
    requires Run(trace, steps) && i < |trace|
    requires trace[i].worker == Waiting && !AnyPending(trace[i].m)
    ensures trace[i].m.state !in {Checking, Downloading, Verifying}
    ensures trace[i].m.state.Installing? ==> trace[i].applied
  {
    RunInv(trace, steps, i);
  }

  // ---------- what is known and what is staged ----------

  /** A verification that ends a download still wanted, and stages what it verified. */
  predicate Stages(s: System, step: Step) {
    step.DoSettleVerify? && s.worker.ChecksumOk? && s.m.state.Verifying?
  }

  /** The installer staged last, unless a download has begun or its version was skipped since. */
  function StagedBy(trace: seq<System>, steps: seq<Step>, i: nat): Installer
    requires i <= |steps| < |trace|
  {
    if i == 0 then NO_INSTALLER
    else if Stages(trace[i - 1], steps[i - 1]) then trace[i - 1].worker.info.installer
    else if steps[i - 1].DoBeginDownload? && trace[i].worker.Loading? then NO_INSTALLER
    else if steps[i - 1] == DoSkip(StagedBy(trace, steps, i - 1).version) then NO_INSTALLER
    else StagedBy(trace, steps, i - 1)
  }

  lemma RequestsKeepStaged(m: Shared, user: bool)
    ensures RequestCheck(m, user).staged == m.staged
    ensures RequestDownload(m).staged == m.staged
    ensures RequestRepair(m).staged == m.staged
  {
  }

  lemma StagedQueues(s: System, t: System, step: Step)
    requires Next(s, t, step) && Queues(step)
    ensures t.m.staged == s.m.staged
  {
    if step.DoRequestCheck? {
      RequestsKeepStaged(s.m, step.user);
    } else {
      RequestsKeepStaged(s.m, false);
    }
  }

  lemma StagedActs(s: System, t: System, step: Step)
    requires Next(s, t, step) && Acts(step) && !step.DoSkip?
    ensures t.m.staged == s.m.staged
  {
  }

  lemma StagedKept(s: System, t: System, step: Step)
    requires Next(s, t, step) && !step.DoSettleVerify? && !step.DoBeginDownload? && !step.DoSkip?
    ensures t.m.staged == s.m.staged
  {
    if Queues(step) {
      StagedQueues(s, t, step);
    } else if Acts(step) {
      StagedActs(s, t, step);
    }
  }

  lemma StagedStep(s: System, t: System, step: Step)
    requires Next(s, t, step)
    ensures t.m.staged == if Stages(s, step) then s.worker.info.installer
                          else if step.DoBeginDownload? && t.worker.Loading? then NO_INSTALLER
                          else if step == DoSkip(s.m.staged.version) then NO_INSTALLER
                          else s.m.staged
  {
    if !step.DoSettleVerify? && !step.DoBeginDownload? && !step.DoSkip? {
      StagedKept(s, t, step);
    }
  }

  lemma {:induction false} StagedIsLastVerified(trace: seq<System>, steps: seq<Step>, i: nat)
    requires Run(trace, steps) && i < |trace|
    ensures trace[i].m.staged == StagedBy(trace, steps, i)
  {
    if i > 0 {
      StagedIsLastVerified(trace, steps, i - 1);
      StagedStep(trace[i - 1], trace[i], steps[i - 1]);
    }
  }

  /** A skip that forgets the release known. */
  predicate SkipsKnown(s: System, step: Step) {
    step == DoSkip(s.m.info.installer.version)
  }

  /** The release the last check left, unless that was skipped since. */
  function KnownBy(trace: seq<System>, steps: seq<Step>, i: nat): Info
    requires i <= |steps| < |trace|
  {
    if i == 0 then NO_INFO
    else if steps[i - 1] == DoSettleCheck && trace[i - 1].worker.Fetched? && !CheckSuperseded(trace[i - 1].m) then trace[i - 1].worker.info
    else if steps[i - 1] == DoSkip(KnownBy(trace, steps, i - 1).installer.version) then NO_INFO
    else KnownBy(trace, steps, i - 1)
  }

  lemma CheckRequestKeepsKnown(m: Shared, user: bool)
    ensures RequestCheck(m, user).info == m.info
  {
  }

  lemma RepairRequestKeepsKnown(m: Shared)
    ensures RequestRepair(m).info == m.info
  {
  }

  lemma KnownQueues(s: System, t: System, step: Step)
    requires Next(s, t, step) && (Queues(step) || Acts(step))
    ensures t.m.info == s.m.info
  {
    if step.DoRequestCheck? {
      CheckRequestKeepsKnown(s.m, step.user);
    } else if step.DoRequestRepair? {
      RepairRequestKeepsKnown(s.m);
    }
  }

  lemma KnownStep(s: System, t: System, step: Step)
    requires Next(s, t, step)
    ensures t.m.info == if step == DoSettleCheck && s.worker.Fetched? && !CheckSuperseded(s.m) then s.worker.info
                        else if SkipsKnown(s, step) then NO_INFO
                        else s.m.info
  {
    if Queues(step) || Acts(step) {
      KnownQueues(s, t, step);
    }
  }

  /** In every run the release known is the one the last check not superseded fetched, or none once that was skipped. */
  lemma {:induction false} KnownIsLastFetched(trace: seq<System>, steps: seq<Step>, i: nat)
    requires Run(trace, steps) && i < |trace|
    ensures trace[i].m.info == KnownBy(trace, steps, i)
  {
    if i > 0 {
      KnownIsLastFetched(trace, steps, i - 1);
      KnownStep(trace[i - 1], trace[i], steps[i - 1]);
    }
  }

  /** A check is under way, from the job taken to its settling. */
  predicate ChecksNow(w: Worker) {
    w.Fetching? || w.Fetched? || w.FetchFailed?
  }

  /** The job taken at `a` is a check that is still under way at `i`. */
  ghost predicate CheckSpan(trace: seq<System>, steps: seq<Step>, a: nat, i: nat)
    requires |trace| == |steps| + 1
  {
    a < i < |trace| && steps[a] == DoTakeJob && forall c :: a < c <= i ==> ChecksNow(trace[c].worker)
  }

  /** Every check under way began with a job taken. */
  lemma {:induction false} CheckBegan(trace: seq<System>, steps: seq<Step>, i: nat) returns (a: nat)
    requires Run(trace, steps) && i < |trace| && ChecksNow(trace[i].worker)
    ensures CheckSpan(trace, steps, a, i)
  {
    assert Next(trace[i - 1], trace[i], steps[i - 1]);
    if ChecksNow(trace[i - 1].worker) {
      a := CheckBegan(trace, steps, i - 1);
    } else {
      a := i - 1;
    }
  }

  predicate SkippedWithin(trace: seq<System>, steps: seq<Step>, a: nat, i: nat)
    requires |trace| == |steps| + 1 && i <= |steps|
  {
    exists b {:trigger steps[b]} :: a < b < i && SkipsKnown(trace[b], steps[b])
  }

  lemma SkippedNext(trace: seq<System>, steps: seq<Step>, a: nat, i: nat)
    requires |trace| == |steps| + 1 && a + 1 < i <= |steps|
    ensures SkippedWithin(trace, steps, a, i) <==>
            SkippedWithin(trace, steps, a, i - 1) || SkipsKnown(trace[i - 1], steps[i - 1])
  {
    if b :| a < b < i - 1 && SkipsKnown(trace[b], steps[b]) {
      assert a < b < i;
    }
    if b :| a < b < i && SkipsKnown(trace[b], steps[b]) {
      assert b < i - 1 || b == i - 1;
    }
  }

  /** The fields while a check goes on: as it found them, or with the known release skipped. */
  predicate Underway(m: Shared, skipped: bool) {
    !m.pendingDownload && if skipped then Skipped(m) else m.state.Checking? && !m.pendingCheck
  }

  lemma UnderwayStep(s: System, t: System, step: Step, skipped: bool)
    requires Next(s, t, step) && ChecksNow(s.worker) && ChecksNow(t.worker) && Underway(s.m, skipped)
    ensures Underway(t.m, skipped || SkipsKnown(s, step))
  {
  }

  lemma CheckTaken(s: System, t: System)
    requires Next(s, t, DoTakeJob) && ChecksNow(t.worker)
    ensures Underway(t.m, false)
  {
  }

  lemma {:induction false} CheckUnderway(trace: seq<System>, steps: seq<Step>, a: nat, i: nat)
    requires Run(trace, steps) && CheckSpan(trace, steps, a, i)
    ensures Underway(trace[i].m, SkippedWithin(trace, steps, a, i))
  {
    if a + 1 < i {
      CheckUnderway(trace, steps, a, i - 1);
      var step := steps[i - 1];
      UnderwayStep(trace[i - 1], trace[i], step, SkippedWithin(trace, steps, a, i - 1));
      SkippedNext(trace, steps, a, i);
    } else {
      CheckTaken(trace[a], trace[i]);
    }
  }

  /** Where a check that fetched a release leaves the fields. */
  predicate CheckLeaves(m: Shared, fetched: Info, staged: Installer) {
    && m.info == fetched && m.failedPhase == Idle
    && (m.state == Downloaded <==> staged.version != "" && fetched.installer == staged)
    && (m.state == UpdateAvailable <==> fetched.available && m.state != Downloaded)
    && (m.state == UpToDate <==> !fetched.available && m.state != Downloaded)
  }

  /**
   In every run, a check whose known release is not skipped while it goes on leaves what
   it fetched as the release known: Downloaded exactly if that very installer was verified
   and is still staged, else UpdateAvailable exactly if it is on offer, else UpToDate.  A
   check whose known release is skipped meanwhile changes nothing.
   */
  lemma CheckSettles(trace: seq<System>, steps: seq<Step>, a: nat, i: nat)
    requires Run(trace, steps) && CheckSpan(trace, steps, a, i) && i < |steps|
    requires steps[i] == DoSettleCheck && trace[i].worker.Fetched?
    ensures if SkippedWithin(trace, steps, a, i) then trace[i + 1].m == trace[i].m
            else CheckLeaves(trace[i + 1].m, trace[i].worker.info, StagedBy(trace, steps, i))
  {
    CheckUnderway(trace, steps, a, i);
    StagedIsLastVerified(trace, steps, i);
    assert Next(trace[i], trace[i + 1], steps[i]);
  }

  /** Where a failed check leaves the fields: a user's own ends in Error, any other falls back to what is staged or on offer. */
  predicate FailedCheckLeaves(m: Shared, was: Shared, staged: Installer) {
    && m.info == was.info
    && (m.state == Downloaded <==> !was.userInitiated && staged.version != "" && was.info.installer == staged)
    && (m.state == UpdateAvailable <==> !was.userInitiated && was.info.available && m.state != Downloaded)
    && (m.state == Error <==> m.state != Downloaded && m.state != UpdateAvailable)
    && m.failedPhase == if m.state == Error then Checking else Idle
  }

  /** In every run, a failed check keeps the release known, unless that is skipped while it goes on, and then it changes nothing. */
  lemma FailedCheckSettles(trace: seq<System>, steps: seq<Step>, a: nat, i: nat)
    requires Run(trace, steps) && CheckSpan(trace, steps, a, i) && i < |steps|
    requires steps[i] == DoSettleCheck && trace[i].worker.FetchFailed?
    ensures if SkippedWithin(trace, steps, a, i) then trace[i + 1].m == trace[i].m
            else FailedCheckLeaves(trace[i + 1].m, trace[i].m, StagedBy(trace, steps, i))
  {
    CheckUnderway(trace, steps, a, i);
    StagedIsLastVerified(trace, steps, i);
    assert Next(trace[i], trace[i + 1], steps[i]);
  }

  /** A download is accepted here. */
  predicate AcceptsDownload(s: System, t: System) {
    t.m == s.m.(state := Downloading, pendingDownload := true, failedPhase := Idle)
  }

  /**
   In every run, a download requested right after a check has settled is accepted exactly
   if what was fetched is on offer, installs itself and is not staged already; otherwise
   the request changes nothing.
   */
  lemma OfferedIsAccepted(trace: seq<System>, steps: seq<Step>, a: nat, i: nat)
    requires Run(trace, steps) && CheckSpan(trace, steps, a, i) && i + 1 < |steps| && !SkippedWithin(trace, steps, a, i)
    requires steps[i] == DoSettleCheck && trace[i].worker.Fetched? && steps[i + 1] == DoRequestDownload
    ensures var fetched, staged := trace[i].worker.info, StagedBy(trace, steps, i);
      if fetched.available && !fetched.manual && !(staged.version != "" && fetched.installer == staged)
      then AcceptsDownload(trace[i + 1], trace[i + 2])
      else trace[i + 2].m == trace[i + 1].m
  {
    CheckSettles(trace, steps, a, i);
    assert Next(trace[i + 1], trace[i + 2], steps[i + 1]);
  }

  /**
   In every run, the download a check brings about by itself is accepted exactly if the
   check got through, nothing is in flight, the release known installs itself, and either
   it is on offer and wanted automatically, or a repair is pending, there is a release to
   repair with and none is staged; a repair not taken up is dropped.
   */
  lemma AutoDownloadIff(trace: seq<System>, steps: seq<Step>, i: nat)
    requires Run(trace, steps) && i < |steps| && steps[i].DoQueueDownload? && trace[i].worker.Queueing?
    ensures var m, n := trace[i].m, trace[i + 1].m;
      var repairs := m.repairPending && m.state != Downloaded && m.info.installer.version != "";
      var wanted := m.state == UpdateAvailable && steps[i].autoDownload;
      if WorkInFlight(m.state) then n == m
      else if trace[i].worker.fetched && !m.info.manual && (repairs || wanted)
      then n == m.(state := Downloading, pendingDownload := true, failedPhase := Idle, repairPending := repairs)
      else n == m.(repairPending := false)
  {
    assert Next(trace[i], trace[i + 1], steps[i]);
  }

  /**
   In every run, an install requested is accepted exactly after a download or a failed
   install, and if the release known is the one verified and still staged; otherwise the
   request changes nothing.
   */
  lemma InstallAcceptedIff(trace: seq<System>, steps: seq<Step>, i: nat)
    requires Run(trace, steps) && i < |steps| && steps[i] == DoRequestInstall
    ensures var m, n, staged := trace[i].m, trace[i + 1].m, StagedBy(trace, steps, i);
      if (m.state == Downloaded || (m.state == Error && m.failedPhase == Installing)) && staged.version != "" && m.info.installer == staged
      then n == m.(state := Installing, pendingInstall := true, repairPending := false, failedPhase := Idle)
      else n == m
  {
    StagedIsLastVerified(trace, steps, i);
    assert Next(trace[i], trace[i + 1], steps[i]);
  }

  /**
   In every run, a cancel drops a download not yet taken up, and the repair with it, and
   the state falls back to what is on offer; anything else it leaves to the worker.
   */
  lemma CancelDropsQueued(trace: seq<System>, steps: seq<Step>, i: nat)
    requires Run(trace, steps) && i < |steps| && steps[i] == DoCancel
    ensures var m, n := trace[i].m, trace[i + 1].m;
      && n == m.(state := n.state, failedPhase := n.failedPhase, pendingDownload := false, repairPending := n.repairPending)
      && if m.pendingDownload then !n.repairPending && n.failedPhase == Idle && n.state == (if m.info.available then UpdateAvailable else Idle)
         else n == m
  {
    assert Next(trace[i], trace[i + 1], steps[i]);
  }

  // ---------- the service's own methods ----------

  /** The fields behind the lock.  Each method is one section under it. */
  class Service {
    var state: UpdateState
    var info: Info
    var failedPhase: UpdateState
    var downloadedPath: string
    var staged: Installer
    var userInitiatedCheck: bool
    var pendingCheck: bool
    var pendingDownload: bool
    var repairPending: bool
    var pendingInstall: bool

    ghost function Model(): Shared
      reads this
    {
      Shared(state, info, failedPhase, downloadedPath, staged, userInitiatedCheck,
             pendingCheck, pendingDownload, repairPending, pendingInstall)
    }

    constructor ()
      ensures Init(System(Model(), Waiting, None, false))
    {
      state, info, failedPhase, downloadedPath, staged := Idle, NO_INFO, Idle, "", NO_INSTALLER;
      userInitiatedCheck, pendingCheck, pendingDownload, repairPending, pendingInstall := false, false, false, false, false;
    }

    /** The release known, the one staged and the downloaded file are left alone. */
    twostate predicate KeepsRelease()
      reads this
    {
      info == old(info) && staged == old(staged) && downloadedPath == old(downloadedPath)
    }

    method EnterState(target: UpdateState)
      modifies this
      ensures Model() == Enter(old(Model()), target)
    {
      state := target;
      failedPhase := Idle;
    }

    method AcceptCheckLocked(user: bool)
      modifies this
      ensures Model() == AcceptCheck(old(Model()), user)
    {
      pendingCheck := true;
      userInitiatedCheck := user;
      EnterState(Checking);
    }

    method AcceptDownloadLocked()
      modifies this
      ensures Model() == AcceptDownload(old(Model()))
    {
      pendingDownload := true;
      EnterState(Downloading);
    }

    method AcceptInstallLocked()
      modifies this
      ensures Model() == AcceptInstall(old(Model()))
    {
      pendingInstall := true;
      repairPending := false;
      EnterState(Installing);
    }

    method AbandonDownloadLocked()
      modifies this
      ensures Model() == AbandonDownload(old(Model()))
    {
      var settled := if info.available then UpdateAvailable else Idle;
      EnterState(settled);
    }

    predicate CheckQueuedLocked()
      reads this
      ensures CheckQueuedLocked() == CheckQueued(Model())
    {
      pendingCheck || state == Checking
    }

    predicate CheckSupersededLocked()
      reads this
      ensures CheckSupersededLocked() == CheckSuperseded(Model())
    {
      state != Checking || pendingCheck
    }

    predicate IsStagedLocked(candidate: Info)
      reads this
      ensures IsStagedLocked(candidate) == IsStaged(Model(), candidate)
    {
      var somethingStaged := staged.version != "";
      var sameRelease := candidate.installer.version == staged.version && candidate.installer.assetName == staged.assetName;
      var sameBytes := candidate.installer.digest == staged.digest;
      somethingStaged && sameRelease && sameBytes
    }

    method RequestCheckSection(user: bool)
      modifies this
      ensures Model() == RequestCheck(old(Model()), user)
      ensures KeepsRelease()
      ensures if old(CheckQueued(Model())) then Model() == old(Model()).(userInitiated := old(userInitiatedCheck) || user)
              else if old(WorkInFlight(state)) then Model() == old(Model())
              else pendingCheck && state == Checking && userInitiatedCheck == user && failedPhase == Idle
    {
      var checkQueued := CheckQueuedLocked();
      if checkQueued && user {
        userInitiatedCheck := true;
      }
      if checkQueued || WorkInFlight(state) {
        return;
      }
      AcceptCheckLocked(user);
    }

    method RequestDownloadSection()
      modifies this
      ensures Model() == RequestDownload(old(Model()))
      ensures KeepsRelease()
      ensures if old(state) in {UpdateAvailable, Error} && info.available && !info.manual
              then pendingDownload && state == Downloading && failedPhase == Idle else Model() == old(Model())
    {
      if state != UpdateAvailable && state != Error {
        return;
      }
      if !info.available {
        return;
      }
      if info.manual {
        return;
      }
      AcceptDownloadLocked();
    }

    method RequestRepairSection()
      modifies this
      ensures Model() == RequestRepair(old(Model()))
      ensures KeepsRelease()
      ensures if info.manual then Model() == old(Model())
              else if old(CheckQueued(Model())) then Model() == old(Model()).(repairPending := true, userInitiated := true)
              else if old(WorkInFlight(state)) || old(state) == Downloaded then Model() == old(Model())
              else && repairPending && failedPhase == Idle
                   && if info.installer.version == "" then pendingCheck && userInitiatedCheck && state == Checking
                      else pendingDownload && state == Downloading
    {
      if info.manual {
        return;
      }
      if CheckQueuedLocked() {
        repairPending := true;
        userInitiatedCheck := true;
        return;
      }
      if WorkInFlight(state) || state == Downloaded {
        return;
      }
      repairPending := true;
      if info.installer.version == "" {
        AcceptCheckLocked(true);
      } else {
        AcceptDownloadLocked();
      }
    }

    method RequestInstallSection()
      modifies this
      ensures Model() == RequestInstall(old(Model()))
      ensures KeepsRelease()
      ensures if (old(state) == Downloaded || (old(state) == Error && old(failedPhase) == Installing))
                 && staged.version != "" && info.installer == staged
              then pendingInstall && !repairPending && state == Installing && failedPhase == Idle else Model() == old(Model())
    {
      var downloaded := state == Downloaded;
      var installFailed := state == Error && failedPhase == Installing;
      if !downloaded && !installFailed {
        return;
      }
      if !IsStagedLocked(info) {
        return;
      }
      AcceptInstallLocked();
    }

    method CancelSection()
      modifies this
      ensures Model() == CancelInFlight(old(Model()))
      ensures KeepsRelease()
      ensures !pendingDownload && (pendingCheck, pendingInstall) == old((pendingCheck, pendingInstall))
      ensures if old(pendingDownload) then !repairPending && state == (if info.available then UpdateAvailable else Idle)
              else Model() == old(Model())
    {
      if pendingDownload {
        pendingDownload := false;
        repairPending := false;
        AbandonDownloadLocked();
      }
    }

    method SkipVersionSection(version: string)
      modifies this
      ensures Model() == SkipVersion(old(Model()), version)
      ensures version != "" ==> info.installer.version != version && staged.version != version
    {
      if info.installer.version == version {
        info := NO_INFO;
        state := Idle;
        failedPhase := Idle;
      }
      if staged.version == version {
        staged := NO_INSTALLER;
      }
    }

    method TakeNextJob() returns (job: Job)
      requires AnyPending(Model())
      modifies this
      ensures (Model(), job) == TakeJob(old(Model()))
      ensures match job
              case Install => old(pendingInstall) && !pendingInstall
              case Download => old(pendingDownload) && !pendingDownload && !pendingInstall
              case Check => old(pendingCheck) && !AnyPending(Model()) && state == Checking
    {
      if pendingInstall {
        pendingInstall := false;
        return Install;
      }
      if pendingDownload {
        pendingDownload := false;
        return Download;
      }
      pendingCheck := false;
      EnterState(Checking);
      return Check;
    }

    method QueueDownloadIfWanted(fetched: bool, autoDownload: bool)
      modifies this
      ensures Model() == QueueDownload(old(Model()), fetched, autoDownload)
      ensures KeepsRelease()
      ensures pendingDownload && !old(pendingDownload) ==> fetched && state == Downloading && !info.manual
    {
      if WorkInFlight(state) {
        return;
      }
      var selfInstallable := !info.manual;
      var offered := fetched && state == UpdateAvailable && selfInstallable;
      var repairUsable := fetched && state != Downloaded && info.installer.version != "" && selfInstallable;
      var repairWanted := repairPending && repairUsable;
      repairPending := repairWanted;
      if (autoDownload && offered) || repairWanted {
        AcceptDownloadLocked();
      }
    }

    method SettleCheckSection(target: UpdateState, fetched: Info)
      requires target == if fetched.available then UpdateAvailable else UpToDate
      modifies this
      ensures Model() == SettleCheck(old(Model()), fetched)
      ensures if old(CheckSuperseded(Model())) then Model() == old(Model()) else CheckLeaves(Model(), fetched, old(staged))
      ensures staged == old(staged) && downloadedPath == old(downloadedPath)
    {
      if CheckSupersededLocked() {
        return;
      }
      var settled := if IsStagedLocked(fetched) then Downloaded else target;
      info := fetched;
      EnterState(settled);
    }

    method SettleFailedCheckSection()
      modifies this
      ensures Model() == SettleFailedCheck(old(Model()))
      ensures KeepsRelease()
      ensures if old(CheckSuperseded(Model())) then Model() == old(Model())
              else FailedCheckLeaves(Model(), old(Model()), old(staged))
    {
      if CheckSupersededLocked() {
        return;
      }
      var settled := FailedCheckState(userInitiatedCheck, IsStagedLocked(info), info.available);
      EnterState(settled);
      if settled == Error {
        failedPhase := Checking;
      }
    }

    method BeginDownloadSection() returns (begun: bool)
      modifies this
      ensures (Model(), begun) == BeginDownload(old(Model()))
      ensures info == old(info) && (begun ==> state == Downloading && staged == NO_INSTALLER)
      ensures begun <==> !old(pendingCheck) && (info.available || old(repairPending)) && !info.manual
      ensures !begun ==> staged == old(staged)
      ensures !begun && !old(pendingCheck) ==> !repairPending && state == if info.available then UpdateAvailable else Idle
    {
      if pendingCheck {
        return false;
      }
      var repair := repairPending;
      repairPending := false;
      if !info.available && !repair {
        AbandonDownloadLocked();
        return false;
      } else if info.manual {
        AbandonDownloadLocked();
        return false;
      } else {
        state := Downloading;
        failedPhase := Idle;
        staged := NO_INSTALLER;
        return true;
      }
    }

    method DownloadFailedSection(cancelled: bool)
      modifies this
      ensures Model() == DownloadFailed(old(Model()), cancelled)
      ensures KeepsRelease()
      ensures if old(state) != Downloading then Model() == old(Model())
              else if cancelled then state == (if info.available then UpdateAvailable else Idle)
              else state == Error && failedPhase == Downloading
    {
      if state != Downloading {
        return;
      }
      if cancelled {
        AbandonDownloadLocked();
      } else {
        state := Error;
        failedPhase := Downloading;
      }
    }

    method DownloadDoneSection(localPath: string) returns (verify: bool)
      modifies this
      ensures Model() == DownloadDone(old(Model()), localPath)
      ensures verify == old(state).Downloading? && (verify ==> downloadedPath == localPath && state == Verifying)
    {
      if state != Downloading {
        return false;
      }
      downloadedPath := localPath;
      state := Verifying;
      return true;
    }

    method VerifyFailedSection()
      modifies this
      ensures Model() == VerifyFailed(old(Model()))
      ensures KeepsRelease()
      ensures if old(state) == Verifying then state == Error && failedPhase == Verifying else Model() == old(Model())
    {
      if state != Verifying {
        return;
      }
      state := Error;
      failedPhase := Verifying;
    }

    method VerifyDoneSection(verified: Info, autoInstall: bool)
      modifies this
      ensures Model() == VerifyDone(old(Model()), verified.installer, autoInstall)
      ensures if old(state) != Verifying then Model() == old(Model())
              else staged == verified.installer && if autoInstall then state == Installing && pendingInstall else state == Downloaded
    {
      if state != Verifying {
        return;
      }
      state := Downloaded;
      staged := Installer(verified.installer.version, verified.installer.assetName, verified.installer.digest);
      if autoInstall {
        AcceptInstallLocked();
      }
    }

    method ApplyFailedSection()
      modifies this
      ensures Model() == ApplyFailed(old(Model()))
      ensures KeepsRelease()
      ensures if old(state) == Installing then state == Error && failedPhase == Installing else Model() == old(Model())
    {
      if state != Installing {
        return;
      }
      state := Error;
      failedPhase := Installing;
    }
  }
}
