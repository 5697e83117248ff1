/**
 The pointer worker: it turns touchpad frames into mouse input, one held-button record
 per pad, and fences late frames off with release stamps.  The issuer is the topology
 lock's holder, which stamps every binding of a serial and every release; the receiver
 queues frames under whatever published stamp it last read, however stale.
 Stamps are taken not to wrap.
 */
module PointerWorker {

  import opened Basics

  const PADS := 17

  datatype Buttons = Buttons(left: bool, right: bool, middle: bool)

  const NONE := Buttons(false, false, false)

  datatype Pad = Pad(buttons: Buttons, releaseStamp: nat, stamp: nat)

  datatype Frame = Frame(serial: nat, stamp: nat, buttons: Buttons)

  datatype Command = Release(serial: nat, stamp: nat) | Retry

  function Or(a: Buttons, b: Buttons): Buttons {
    Buttons(a.left || b.left, a.right || b.right, a.middle || b.middle)
  }

  /** Every button some pad holds, and no other. */
  function Held(pads: seq<Pad>): (held: Buttons)
    ensures held.left <==> exists k :: 0 <= k < |pads| && pads[k].buttons.left
    ensures held.right <==> exists k :: 0 <= k < |pads| && pads[k].buttons.right
    ensures held.middle <==> exists k :: 0 <= k < |pads| && pads[k].buttons.middle
  {
    if pads == [] then NONE else Or(Held(pads[..|pads| - 1]), pads[|pads| - 1].buttons)
  }

  /** What the worker owns; `host` is the button state the host last accepted. */
  datatype Injector = Injector(pads: seq<Pad>, retryPending: bool, host: Buttons)

  function Submit(v: Injector, ok: bool): Injector {
    v.(host := if ok then Held(v.pads) else v.host, retryPending := !ok)
  }

  predicate Accepts(v: Injector, frame: Frame)
    requires frame.serial < |v.pads|
  {
    v.pads[frame.serial].releaseStamp <= frame.stamp
  }

  function Process(v: Injector, frame: Frame, ok: bool): Injector
    requires frame.serial < |v.pads|
  {
    if !Accepts(v, frame) then v
    else
      var pad := v.pads[frame.serial].(buttons := frame.buttons, stamp := frame.stamp);
      Submit(v.(pads := v.pads[frame.serial := pad]), ok)
  }

  function Apply(v: Injector, command: Command, ok: bool): Injector
    requires command.Release? ==> command.serial < |v.pads|
  {
    match command
    case Release(serial, stamp) =>
      var pad := v.pads[serial];
      var released := v.(pads := v.pads[serial := pad.(buttons := NONE, releaseStamp := Max(pad.releaseStamp, stamp))]);
      if pad.buttons == NONE then released else Submit(released, ok)
    case Retry => if v.retryPending then Submit(v, ok) else v
  }

  /** The worker's own fields.  `ok` is the backend's answer to the submit the call makes, if it makes one. */
  class Injection {
    const pads: array<Pad>
    var retryPending: bool
    ghost var host: Buttons
    ghost var sent: seq<Buttons>

    ghost function Model(): Injector
      reads this, pads
    {
      Injector(pads[..], retryPending, host)
    }

    constructor ()
      ensures fresh(pads) && pads.Length == PADS && sent == []
      ensures Model() == Injector(seq(PADS, _ => Pad(NONE, 0, 0)), false, NONE)
    {
      pads := new Pad[PADS](_ => Pad(NONE, 0, 0));
      retryPending, host, sent := false, NONE, [];
      new;
      assert pads[..] == seq(PADS, _ => Pad(NONE, 0, 0));
    }

    /** Hands the backend the union of what all pads hold. */
    method SubmitMouse(ok: bool) returns (accepted: bool)
      modifies this
      ensures accepted == ok && retryPending == old(retryPending)
      ensures sent == old(sent) + [Held(pads[..])]
      ensures host == if ok then Held(pads[..]) else old(host)
    {
      var held := NONE;
      for k := 0 to pads.Length
        invariant held == Held(pads[..k])
      {
        assert pads[..k + 1][..k] == pads[..k];
        held := Buttons(held.left || pads[k].buttons.left, held.right || pads[k].buttons.right,
                        held.middle || pads[k].buttons.middle);
      }
      assert pads[..pads.Length] == pads[..];
      sent := sent + [held];
      host := if ok then held else host;
      return ok;
    }

    method ProcessOne(frame: Frame, ok: bool)
      requires frame.serial < pads.Length
      modifies this, pads
      ensures Model() == Process(old(Model()), frame, ok)
      ensures HostIsCurrent(old(Model())) ==> HostIsCurrent(Model())
      ensures sent == old(sent) + if Accepts(old(Model()), frame) then [Held(pads[..])] else []
    {
      if frame.stamp < pads[frame.serial].releaseStamp {
        return;
      }
      if pads[frame.serial].stamp != frame.stamp {
        pads[frame.serial] := pads[frame.serial].(stamp := frame.stamp);
      }
      pads[frame.serial] := pads[frame.serial].(buttons := frame.buttons);
      assert pads[..] == old(pads[..])[frame.serial := old(pads[frame.serial]).(buttons := frame.buttons, stamp := frame.stamp)];
      var accepted := SubmitMouse(ok);
      retryPending := !accepted;
    }

    method ApplyOne(command: Command, ok: bool)
      requires command.Release? ==> command.serial < pads.Length
      modifies this, pads
      ensures Model() == Apply(old(Model()), command, ok)
      ensures HostIsCurrent(old(Model())) ==> HostIsCurrent(Model())
      ensures sent == old(sent) || sent == old(sent) + [Held(pads[..])]
    {
      if HostIsCurrent(Model()) {
        ApplyKeepsHost(Model(), command, ok);
      }
      match command
      case Release(serial, stamp) =>
        var pad := pads[serial];
        if stamp > pad.releaseStamp {
          pads[serial] := pads[serial].(releaseStamp := stamp);
        }
        var anyHeld := pad.buttons.left || pad.buttons.right || pad.buttons.middle;
        pads[serial] := pads[serial].(buttons := NONE);
        assert pads[..] == old(pads[..])[serial := pad.(buttons := NONE, releaseStamp := Max(pad.releaseStamp, stamp))];
        if !anyHeld {
          return;
        }
        var accepted := SubmitMouse(ok);
        retryPending := !accepted;
      case Retry =>
        if !retryPending {
          return;
        }
        var accepted := SubmitMouse(ok);
        retryPending := !accepted;
    }
  }

  // ---------- the system ----------

  /** A queued command; `ready` once its producer has published the cell it claimed. */
  datatype Entry = Entry(command: Command, ready: bool)

  datatype Worker = Polling | Draining(frame: Frame) | Drained(frame: Frame)

  datatype State = State(
    nextStamp: nat,
    bound: map<nat, nat>,
    published: set<(nat, nat)>,
    frames: seq<Frame>,
    commands: seq<Entry>,
    injector: Injector,
    worker: Worker)

  datatype Step =
    | Bind(serial: nat)
    | Unbind(serial: nat)
    | PostRelease(serial: nat)
    | PostRetry
    | FinishPost(k: nat)
    | PublishStamp(serial: nat)
    | PushFrame(frame: Frame)
    | PopFrame
    | PopCommand(ok: bool)
    | EndDrain
    | ProcessFrame(ok: bool)

  ghost predicate Init(s: State) {
    && s.nextStamp == 0 && s.bound == map[] && s.published == {} && s.frames == [] && s.commands == []
    && |s.injector.pads| == PADS && (forall k :: 0 <= k < PADS ==> s.injector.pads[k] == Pad(NONE, 0, 0))
    && !s.injector.retryPending && s.injector.host == NONE
    && s.worker == Polling
  }

  ghost predicate Next(s: State, t: State, step: Step) {
    match step
    case Bind(serial) =>
      && 0 < serial < PADS && serial !in s.bound
      && t == s.(nextStamp := s.nextStamp + 1, bound := s.bound[serial := s.nextStamp + 1])
    case Unbind(serial) =>
      t == s.(bound := s.bound - {serial})
    case PostRelease(serial) =>
      && serial in s.bound
      && t == s.(nextStamp := s.nextStamp + 1, bound := s.bound[serial := s.nextStamp + 1],
                 commands := s.commands + [Entry(Release(serial, s.nextStamp + 1), false)])
    case PostRetry =>
      t == s.(commands := s.commands + [Entry(Retry, false)])
    case FinishPost(k) =>
      k < |s.commands| && t == s.(commands := s.commands[k := s.commands[k].(ready := true)])
    case PublishStamp(serial) =>
      // the issuer is past its posts when it publishes
      && serial in s.bound
      && (forall k :: 0 <= k < |s.commands| && s.commands[k].command.Release? ==> s.commands[k].ready)
      && t == s.(published := s.published + {(serial, s.bound[serial])})
    case PushFrame(frame) =>
      (frame.serial, frame.stamp) in s.published && t == s.(frames := s.frames + [frame])
    case PopFrame =>
      && s.worker == Polling && s.frames != []
      && t == s.(frames := s.frames[1..], worker := Draining(s.frames[0]))
    case PopCommand(ok) =>
      && !s.worker.Drained? && s.commands != [] && s.commands[0].ready
      && (s.commands[0].command.Release? ==> s.commands[0].command.serial < |s.injector.pads|)
      && t == s.(commands := s.commands[1..], injector := Apply(s.injector, s.commands[0].command, ok))
    case EndDrain =>
      // the pop finds nothing: the queue is empty, or its head is claimed and not yet published
      && s.worker.Draining? && (s.commands == [] || !s.commands[0].ready)
      && t == s.(worker := Drained(s.worker.frame))
    case ProcessFrame(ok) =>
      && s.worker.Drained? && s.worker.frame.serial < |s.injector.pads|
      && t == s.(worker := Polling, injector := Process(s.injector, s.worker.frame, ok))
  }

  // ---------- what every step keeps ----------

  predicate HostIsCurrent(v: Injector) {
    v.retryPending || v.host == Held(v.pads)
  }

  lemma {:induction false} HeldOfEqualButtons(a: seq<Pad>, b: seq<Pad>)
    requires |a| == |b| && forall k :: 0 <= k < |a| ==> a[k].buttons == b[k].buttons
    ensures Held(a) == Held(b)
  {
    if a != [] {
      HeldOfEqualButtons(a[..|a| - 1], b[..|b| - 1]);
    }
  }

  lemma ApplyKeepsHost(v: Injector, command: Command, ok: bool)
    requires HostIsCurrent(v) && (command.Release? ==> command.serial < |v.pads|)
    ensures HostIsCurrent(Apply(v, command, ok))
  {
    if command.Release? && v.pads[command.serial].buttons == NONE {
      HeldOfEqualButtons(v.pads, Apply(v, command, ok).pads);
    }
  }

  /** A frame the worker still has to process, and the release stamps still queued. */
  ghost predicate Stamped(s: State, serial: nat, stamp: nat) {
    serial < PADS && stamp <= s.nextStamp && (serial in s.bound ==> stamp <= s.bound[serial])
  }

  ghost predicate Inv(s: State) {
    && |s.injector.pads| == PADS
    && HostIsCurrent(s.injector)
    && (forall serial :: serial in s.bound ==> serial < PADS && s.bound[serial] <= s.nextStamp)
    && (forall serial, stamp :: (serial, stamp) in s.published ==> Stamped(s, serial, stamp))
    && (forall k :: 0 <= k < |s.frames| ==> Stamped(s, s.frames[k].serial, s.frames[k].stamp))
    && (forall k :: 0 <= k < |s.commands| && s.commands[k].command.Release? ==>
          Stamped(s, s.commands[k].command.serial, s.commands[k].command.stamp))
    && (!s.worker.Polling? ==> Stamped(s, s.worker.frame.serial, s.worker.frame.stamp))
    && (forall p: nat :: p < PADS ==>
          && Stamped(s, p, s.injector.pads[p].releaseStamp) && Stamped(s, p, s.injector.pads[p].stamp)
          && (s.injector.pads[p].buttons != NONE ==> s.injector.pads[p].releaseStamp <= s.injector.pads[p].stamp))
  }

  /** Stamps only grow, so what was in bounds stays in bounds. */
  lemma StampedStays(s: State, t: State, step: Step)
    requires Inv(s) && Next(s, t, step)
    ensures forall serial: nat, stamp: nat :: Stamped(s, serial, stamp) ==> Stamped(t, serial, stamp)
  {
  }

  lemma InvIssuer(s: State, t: State, step: Step)
    requires Inv(s) && Next(s, t, step)
    requires step.Bind? || step.Unbind? || step.PostRelease? || step.PostRetry? || step.FinishPost? || step.PublishStamp?
    ensures Inv(t)
  {
    StampedStays(s, t, step);
    forall p: nat | p < PADS
      ensures Stamped(t, p, t.injector.pads[p].releaseStamp) && Stamped(t, p, t.injector.pads[p].stamp)
    {
      assert Stamped(s, p, s.injector.pads[p].releaseStamp) && Stamped(s, p, s.injector.pads[p].stamp);
    }
    forall k | 0 <= k < |t.commands| && t.commands[k].command.Release?
      ensures Stamped(t, t.commands[k].command.serial, t.commands[k].command.stamp)
    {
      if k < |s.commands| {
        assert Stamped(s, s.commands[k].command.serial, s.commands[k].command.stamp);
      }
    }
  }

  lemma InvQueues(s: State, t: State, step: Step)
    requires Inv(s) && Next(s, t, step)
    requires step.PushFrame? || step.PopFrame? || step.EndDrain?
    ensures Inv(t)
  {
    StampedStays(s, t, step);
    forall k | 0 <= k < |t.frames| ensures Stamped(t, t.frames[k].serial, t.frames[k].stamp) {
      if step.PopFrame? {
        assert t.frames[k] == s.frames[k + 1];
      }
    }
  }

  lemma InvCommand(s: State, t: State, step: Step)
    requires Inv(s) && Next(s, t, step) && step.PopCommand?
    ensures Inv(t)
  {
    StampedStays(s, t, step);
    ApplyKeepsHost(s.injector, s.commands[0].command, step.ok);
    forall k | 0 <= k < |t.commands| && t.commands[k].command.Release?
      ensures Stamped(t, t.commands[k].command.serial, t.commands[k].command.stamp)
    {
      assert t.commands[k] == s.commands[k + 1];
    }
    forall p: nat | p < PADS
      ensures Stamped(t, p, t.injector.pads[p].releaseStamp) && Stamped(t, p, t.injector.pads[p].stamp)
    {
      assert Stamped(s, p, s.injector.pads[p].releaseStamp) && Stamped(s, p, s.injector.pads[p].stamp);
    }
  }

  lemma InvProcess(s: State, t: State, step: Step)
    requires Inv(s) && Next(s, t, step) && step.ProcessFrame?
    ensures Inv(t)
  {
    StampedStays(s, t, step);
    forall p: nat | p < PADS
      ensures Stamped(t, p, t.injector.pads[p].releaseStamp) && Stamped(t, p, t.injector.pads[p].stamp)
    {
      assert Stamped(s, p, s.injector.pads[p].releaseStamp) && Stamped(s, p, s.injector.pads[p].stamp);
    }
  }

  lemma NextInv(s: State, t: State, step: Step)
    requires Inv(s) && Next(s, t, step)
    ensures Inv(t)
  {
    if step.PopCommand? {
      InvCommand(s, t, step);
    } else if step.ProcessFrame? {
      InvProcess(s, t, step);
    } else if step.PushFrame? || step.PopFrame? || step.EndDrain? {
      InvQueues(s, t, step);
    } else {
      InvIssuer(s, t, step);
    }
  }

  ghost predicate Run(trace: seq<State>, steps: seq<Step>) {
    && |trace| == |steps| + 1
    && Init(trace[0])
    && forall i {:trigger steps[i]} :: 0 <= i < |steps| ==> Next(trace[i], trace[i + 1], steps[i])
  }

  lemma {:induction false} RunInv(trace: seq<State>, steps: seq<Step>, i: nat)
    requires Run(trace, steps) && i < |trace|
    ensures Inv(trace[i])
  {
    if i > 0 {
      RunInv(trace, steps, i - 1);
      NextInv(trace[i - 1], trace[i], steps[i - 1]);
    } else {
      assert Held(trace[0].injector.pads) == NONE;
    }
  }

  // ---------- over whole runs ----------

  /** The worker applies a release for `serial` at this step. */
  predicate AppliesRelease(s: State, step: Step, serial: nat, stamp: nat) {
    step.PopCommand? && s.commands != [] && s.commands[0].command == Release(serial, stamp)
  }

  lemma {:induction false} FenceOnlyRises(trace: seq<State>, steps: seq<Step>, i: nat, j: nat, p: nat)
    requires Run(trace, steps) && i <= j < |trace| && p < PADS
    ensures |trace[i].injector.pads| == PADS == |trace[j].injector.pads|
    ensures trace[i].injector.pads[p].releaseStamp <= trace[j].injector.pads[p].releaseStamp
  {
    RunInv(trace, steps, i);
    RunInv(trace, steps, j);
    if i < j {
      FenceOnlyRises(trace, steps, i, j - 1, p);
      assert Next(trace[j - 1], trace[j], steps[j - 1]);
    }
  }

  function FenceOf(s: State, p: nat): nat {
    if p < |s.injector.pads| then s.injector.pads[p].releaseStamp else 0
  }

  lemma FenceMovesByRelease(s: State, t: State, step: Step, p: nat)
    requires Next(s, t, step) && FenceOf(t, p) != FenceOf(s, p)
    ensures AppliesRelease(s, step, p, FenceOf(t, p))
  {
  }

  /** The fence stands where the highest release applied so far put it. */
  lemma {:induction false} FenceIsARelease(trace: seq<State>, steps: seq<Step>, j: nat, p: nat) returns (i: nat)
    requires Run(trace, steps) && j < |trace| && FenceOf(trace[j], p) > 0
    ensures i < j && AppliesRelease(trace[i], steps[i], p, FenceOf(trace[j], p))
  {
    i := j - 1;
    if FenceOf(trace[i], p) == FenceOf(trace[j], p) {
      i := FenceIsARelease(trace, steps, j - 1, p);
    } else {
      FenceMovesByRelease(trace[i], trace[j], steps[i], p);
    }
  }

  /**
   In every run, a frame is accepted exactly when no release with a higher stamp has
   been applied for its serial; a refused frame changes nothing, however late it comes.
   */
  lemma AcceptedUnlessReleased(trace: seq<State>, steps: seq<Step>, j: nat)
    requires Run(trace, steps) && j < |steps| && steps[j].ProcessFrame? && trace[j].worker.Drained?
    ensures var frame := trace[j].worker.frame;
      && frame.serial < |trace[j].injector.pads|
      && (Accepts(trace[j].injector, frame) <==>
            forall i: nat, stamp: nat :: i < j && AppliesRelease(trace[i], steps[i], frame.serial, stamp) ==>
                  stamp <= frame.stamp)
      && (!Accepts(trace[j].injector, frame) ==> trace[j + 1].injector == trace[j].injector)
  {
    RunInv(trace, steps, j);
    var frame := trace[j].worker.frame;
    assert Next(trace[j], trace[j + 1], steps[j]);
    forall i: nat, stamp: nat | i < j && AppliesRelease(trace[i], steps[i], frame.serial, stamp)
      ensures stamp <= trace[j].injector.pads[frame.serial].releaseStamp
    {
      RunInv(trace, steps, i);
      assert Next(trace[i], trace[i + 1], steps[i]);
      FenceOnlyRises(trace, steps, i + 1, j, frame.serial);
    }
    if !Accepts(trace[j].injector, frame) {
      var i := FenceIsARelease(trace, steps, j, frame.serial);
    }
  }

  /** In every run, once a release has been applied, whatever its pad holds came with its stamp or a later one. */
  lemma ReleasedStaysReleased(trace: seq<State>, steps: seq<Step>, i: nat, j: nat, serial: nat, stamp: nat)
    requires Run(trace, steps) && i < j < |trace| && AppliesRelease(trace[i], steps[i], serial, stamp)
    ensures serial < |trace[j].injector.pads|
    ensures trace[j].injector.pads[serial].buttons == NONE || stamp <= trace[j].injector.pads[serial].stamp
  {
    RunInv(trace, steps, i);
    RunInv(trace, steps, j);
    assert Next(trace[i], trace[i + 1], steps[i]);
    FenceOnlyRises(trace, steps, i + 1, j, serial);
  }

  /** In every run, a frame under its serial's current stamp is accepted. */
  lemma CurrentStampIsAccepted(trace: seq<State>, steps: seq<Step>, j: nat)
    requires Run(trace, steps) && j < |steps| && steps[j].ProcessFrame? && trace[j].worker.Drained?
    requires trace[j].worker.frame.serial in trace[j].bound
    requires trace[j].bound[trace[j].worker.frame.serial] == trace[j].worker.frame.stamp
    ensures trace[j].worker.frame.serial < |trace[j].injector.pads| && Accepts(trace[j].injector, trace[j].worker.frame)
  {
    RunInv(trace, steps, j);
    var frame := trace[j].worker.frame;
    assert Stamped(trace[j], frame.serial, trace[j].injector.pads[frame.serial].releaseStamp);
  }

  /** The worker accepts a frame of pad `p` at this step. */
  predicate TakesFrame(s: State, step: Step, p: nat) {
    && step.ProcessFrame? && s.worker.Drained? && s.worker.frame.serial == p < |s.injector.pads|
    && Accepts(s.injector, s.worker.frame)
  }

  /** The worker applies a release for pad `p` at this step. */
  predicate Releases(s: State, step: Step, p: nat) {
    step.PopCommand? && s.commands != [] && s.commands[0].command.Release? && s.commands[0].command.serial == p
  }

  /** What the last frame accepted for a pad pressed; nothing before the first and after a release. */
  function Pressed(trace: seq<State>, steps: seq<Step>, j: nat, p: nat): Buttons
    requires j <= |steps| < |trace|
  {
    if j == 0 then NONE
    else if TakesFrame(trace[j - 1], steps[j - 1], p) then trace[j - 1].worker.frame.buttons
    else if Releases(trace[j - 1], steps[j - 1], p) then NONE
    else Pressed(trace, steps, j - 1, p)
  }

  lemma PressedStep(s: State, t: State, step: Step, p: nat)
    requires Next(s, t, step) && p < |s.injector.pads|
    ensures |t.injector.pads| == |s.injector.pads|
    ensures TakesFrame(s, step, p) ==> t.injector.pads[p].buttons == s.worker.frame.buttons
    ensures Releases(s, step, p) ==> t.injector.pads[p].buttons == NONE
    ensures !TakesFrame(s, step, p) && !Releases(s, step, p) ==> t.injector.pads[p] == s.injector.pads[p]
  {
  }

  /** In every run, a pad's buttons are those of the last frame accepted for it, or none once released. */
  lemma {:induction false} PadHoldsLastFrame(trace: seq<State>, steps: seq<Step>, j: nat, p: nat)
    requires Run(trace, steps) && j < |trace| && p < PADS
    ensures |trace[j].injector.pads| == PADS && trace[j].injector.pads[p].buttons == Pressed(trace, steps, j, p)
  {
    if j > 0 {
      PadHoldsLastFrame(trace, steps, j - 1, p);
      PressedStep(trace[j - 1], trace[j], steps[j - 1], p);
    }
  }

  /** The step hands the host a button state: an accepted frame, a release of something held, a retry that is due. */
  predicate Submits(s: State, step: Step) {
    || (step.ProcessFrame? && s.worker.Drained? && TakesFrame(s, step, s.worker.frame.serial))
    || (step.PopCommand? && s.commands != [] &&
        match s.commands[0].command
        case Release(serial, _) => serial < |s.injector.pads| && s.injector.pads[serial].buttons != NONE
        case Retry => s.injector.retryPending)
  }

  /** The host refused what it was last handed. */
  predicate LastRefused(trace: seq<State>, steps: seq<Step>, j: nat)
    requires j <= |steps| < |trace|
  {
    j > 0 && if Submits(trace[j - 1], steps[j - 1]) then !steps[j - 1].ok else LastRefused(trace, steps, j - 1)
  }

  lemma RetryStep(s: State, t: State, step: Step)
    requires Next(s, t, step)
    ensures t.injector.retryPending == if Submits(s, step) then !step.ok else s.injector.retryPending
  {
  }

  /** In every run, a retry is pending exactly while the host's last answer was a refusal. */
  lemma {:induction false} RetryPendingIff(trace: seq<State>, steps: seq<Step>, j: nat)
    requires Run(trace, steps) && j < |trace|
    ensures trace[j].injector.retryPending <==> LastRefused(trace, steps, j)
  {
    if j > 0 {
      RetryPendingIff(trace, steps, j - 1);
      RetryStep(trace[j - 1], trace[j], steps[j - 1]);
    }
  }

  /** The pads as their last accepted frames and releases left them. */
  function LastPressed(trace: seq<State>, steps: seq<Step>, j: nat): seq<Pad>
    requires j <= |steps| < |trace|
  {
    seq(PADS, p requires 0 <= p => Pad(Pressed(trace, steps, j, p), 0, 0))
  }

  /**
   In every run, unless the host's last answer was a refusal, it holds exactly the buttons
   that the last frame accepted for some pad pressed.
   */
  lemma HostHoldsLastFrames(trace: seq<State>, steps: seq<Step>, j: nat)
    requires Run(trace, steps) && j < |trace| && !LastRefused(trace, steps, j)
    ensures trace[j].injector.host == Held(LastPressed(trace, steps, j))
  {
    RunInv(trace, steps, j);
    RetryPendingIff(trace, steps, j);
    HostHoldsTheUnion(trace, steps, j);
    forall p: nat | p < PADS ensures trace[j].injector.pads[p].buttons == Pressed(trace, steps, j, p) {
      PadHoldsLastFrame(trace, steps, j, p);
    }
    HeldOfEqualButtons(trace[j].injector.pads, LastPressed(trace, steps, j));
  }

  /** In every run, with no retry pending the host holds exactly the buttons some pad holds. */
  lemma HostHoldsTheUnion(trace: seq<State>, steps: seq<Step>, i: nat)
    requires Run(trace, steps) && i < |trace| && !trace[i].injector.retryPending
    ensures trace[i].injector.host == Held(trace[i].injector.pads)
  {
    RunInv(trace, steps, i);
  }

  // ---------- a release and the input of its own binding ----------

  ghost predicate Queued(s: State, serial: nat, stamp: nat) {
    exists k :: 0 <= k < |s.commands| && s.commands[k].command == Release(serial, stamp)
  }

  /** Queued releases come in stamp order and after every fence; no frame under an unready one's stamp is about. */
  ghost predicate Ordered(s: State) {
    && (forall a, b :: 0 <= a < b < |s.commands| && s.commands[a].command.Release? && s.commands[b].command.Release? ==>
          s.commands[a].command.stamp < s.commands[b].command.stamp)
    && (forall k :: 0 <= k < |s.frames| ==> (s.frames[k].serial, s.frames[k].stamp) in s.published)
    && (!s.worker.Polling? ==> (s.worker.frame.serial, s.worker.frame.stamp) in s.published)
    && (forall k, x :: 0 <= k < |s.commands| && s.commands[k].command.Release? && !s.commands[k].ready && x in s.published ==>
          x.1 < s.commands[k].command.stamp)
    && (forall k, p :: 0 <= k < |s.commands| && s.commands[k].command.Release? && 0 <= p < |s.injector.pads| ==>
          s.injector.pads[p].releaseStamp < s.commands[k].command.stamp)
  }

  lemma OrderedIssuer(s: State, t: State, step: Step)
    requires Inv(s) && Ordered(s) && Next(s, t, step)
    requires step.Bind? || step.Unbind? || step.PostRelease? || step.PostRetry? || step.FinishPost? || step.PublishStamp?
    ensures Ordered(t)
  {
    if step.PostRelease? {
      forall x | x in s.published ensures x.1 <= s.nextStamp {
        assert Stamped(s, x.0, x.1);
      }
      forall p: nat | p < PADS ensures s.injector.pads[p].releaseStamp <= s.nextStamp {
        assert Stamped(s, p, s.injector.pads[p].releaseStamp);
      }
    }
  }

  lemma OrderedPop(s: State, t: State, step: Step)
    requires Inv(s) && Ordered(s) && Next(s, t, step) && step.PopCommand?
    ensures Ordered(t)
  {
    assert forall k :: 0 <= k < |t.commands| ==> t.commands[k] == s.commands[k + 1];
  }

  lemma OrderedWorker(s: State, t: State, step: Step)
    requires Inv(s) && Ordered(s) && Next(s, t, step)
    requires step.PushFrame? || step.PopFrame? || step.EndDrain? || step.ProcessFrame?
    ensures Ordered(t)
  {
    assert t.commands == s.commands;
    if step.PopFrame? {
      assert forall k :: 0 <= k < |t.frames| ==> t.frames[k] == s.frames[k + 1];
    }
  }

  lemma {:induction false} RunOrdered(trace: seq<State>, steps: seq<Step>, i: nat)
    requires Run(trace, steps) && i < |trace|
    ensures Ordered(trace[i])
  {
    if i > 0 {
      RunOrdered(trace, steps, i - 1);
      RunInv(trace, steps, i - 1);
      var step := steps[i - 1];
      assert Next(trace[i - 1], trace[i], step);
      if step.PopCommand? {
        OrderedPop(trace[i - 1], trace[i], step);
      } else if step.PushFrame? || step.PopFrame? || step.EndDrain? || step.ProcessFrame? {
        OrderedWorker(trace[i - 1], trace[i], step);
      } else {
        OrderedIssuer(trace[i - 1], trace[i], step);
      }
    }
  }

  /**
   The drain before a frame ends at `d` with a release of the frame's own stamp or an
   older one still queued, and at `j` the frame is processed ahead of that release.
   */
  ghost predicate Overtakes(trace: seq<State>, steps: seq<Step>, d: nat, j: nat, serial: nat, stamp: nat)
    requires |trace| == |steps| + 1
  {
    && d < j < |steps| && steps[d].EndDrain? && steps[j].ProcessFrame?
    && trace[d].worker.Draining? && trace[j].worker == Drained(trace[d].worker.frame)
    && trace[d].worker.frame.serial == serial && stamp <= trace[d].worker.frame.stamp
    && Queued(trace[d], serial, stamp) && Queued(trace[j], serial, stamp)
  }

  /** A frame from before the stamp is accepted for the serial. */
  predicate AcceptsOlder(s: State, step: Step, serial: nat, stamp: nat) {
    && step.ProcessFrame? && s.worker.Drained? && s.worker.frame.serial == serial < |s.injector.pads|
    && Accepts(s.injector, s.worker.frame) && s.worker.frame.stamp < stamp
  }

  ghost predicate NoOlderBetween(trace: seq<State>, steps: seq<Step>, j: nat, i: nat, serial: nat, stamp: nat)
    requires |trace| == |steps| + 1 && i <= |steps|
  {
    forall k {:trigger steps[k]} :: j < k < i ==> !AcceptsOlder(trace[k], steps[k], serial, stamp)
  }

  /** A queued release was posted once, under the next stamp, and has been queued since. */
  lemma {:induction false} PostedAt(trace: seq<State>, steps: seq<Step>, i: nat, serial: nat, stamp: nat) returns (q: nat)
    requires Run(trace, steps) && i < |trace| && Queued(trace[i], serial, stamp)
    ensures q < i && trace[q].nextStamp + 1 == stamp == trace[q + 1].nextStamp
    ensures forall k :: q < k <= i ==> Queued(trace[k], serial, stamp)
  {
    QueuedByPost(trace[i - 1], trace[i], steps[i - 1], serial, stamp);
    if Queued(trace[i - 1], serial, stamp) {
      q := PostedAt(trace, steps, i - 1, serial, stamp);
    } else {
      q := i - 1;
    }
  }

  lemma QueuedByPost(s: State, t: State, step: Step, serial: nat, stamp: nat)
    requires Next(s, t, step) && Queued(t, serial, stamp)
    ensures Queued(s, serial, stamp) || s.nextStamp + 1 == stamp == t.nextStamp
  {
    var k :| 0 <= k < |t.commands| && t.commands[k].command == Release(serial, stamp);
    if step.PopCommand? {
      assert t.commands[k] == s.commands[k + 1];
    }
  }

  lemma {:induction false} StampsOnlyRise(trace: seq<State>, steps: seq<Step>, i: nat, j: nat)
    requires Run(trace, steps) && i <= j < |trace|
    ensures trace[i].nextStamp <= trace[j].nextStamp
  {
    if i < j {
      StampsOnlyRise(trace, steps, i, j - 1);
      assert Next(trace[j - 1], trace[j], steps[j - 1]);
    }
  }

  function StampOf(s: State, p: nat): nat {
    if p < |s.injector.pads| then s.injector.pads[p].stamp else 0
  }

  lemma RisesByFrame(s: State, t: State, step: Step, p: nat, stamp: nat)
    requires Next(s, t, step) && StampOf(s, p) < stamp <= StampOf(t, p)
    ensures step.ProcessFrame? && s.worker.Drained? && s.worker.frame.serial == p && stamp <= s.worker.frame.stamp
  {
  }

  /** Where a pad's stamp last rose to `stamp` or above. */
  lemma {:induction false} RoseAt(trace: seq<State>, steps: seq<Step>, i: nat, p: nat, stamp: nat) returns (j: nat)
    requires Run(trace, steps) && i < |trace| && 0 < stamp <= StampOf(trace[i], p)
    ensures j < i && steps[j].ProcessFrame? && trace[j].worker.Drained?
    ensures trace[j].worker.frame.serial == p && stamp <= trace[j].worker.frame.stamp
    ensures forall k :: j < k <= i ==> stamp <= StampOf(trace[k], p)
  {
    if StampOf(trace[i - 1], p) < stamp {
      j := i - 1;
      RisesByFrame(trace[j], trace[i], steps[j], p, stamp);
    } else {
      j := RoseAt(trace, steps, i - 1, p, stamp);
    }
  }

  /** The drain a frame about to be processed was popped before. */
  lemma {:induction false} DrainedAt(trace: seq<State>, steps: seq<Step>, j: nat) returns (d: nat)
    requires Run(trace, steps) && j < |trace| && trace[j].worker.Drained?
    ensures d < j && steps[d].EndDrain? && trace[d].worker == Draining(trace[j].worker.frame)
  {
    assert Next(trace[j - 1], trace[j], steps[j - 1]);
    if trace[j - 1].worker.Drained? {
      d := DrainedAt(trace, steps, j - 1);
    } else {
      d := j - 1;
    }
  }

  /** A release that finds input of its own binding was overtaken by it. */
  lemma MeetsOwnInput(trace: seq<State>, steps: seq<Step>, i: nat, serial: nat, stamp: nat) returns (d: nat, j: nat)
    requires Run(trace, steps) && i < |trace| && Queued(trace[i], serial, stamp)
    requires serial < PADS == |trace[i].injector.pads| && stamp <= trace[i].injector.pads[serial].stamp
    ensures j < i && Overtakes(trace, steps, d, j, serial, stamp) && NoOlderBetween(trace, steps, j, i, serial, stamp)
  {
    var q := PostedAt(trace, steps, i, serial, stamp);
    j := RoseAt(trace, steps, i, serial, stamp);
    RunInv(trace, steps, q + 1);
    RunInv(trace, steps, q);
    assert Next(trace[q], trace[q + 1], steps[q]);
    assert Stamped(trace[q], serial, trace[q].injector.pads[serial].stamp);
    assert trace[q + 1].injector == trace[q].injector;
    d := DrainedAt(trace, steps, j);
    RunInv(trace, steps, d);
    assert Stamped(trace[d], serial, trace[d].worker.frame.stamp);
    if d <= q {
      StampsOnlyRise(trace, steps, d, q);
    }
    forall k | j < k < i ensures !AcceptsOlder(trace[k], steps[k], serial, stamp) {
      assert Next(trace[k], trace[k + 1], steps[k]);
    }
  }

  lemma StampStays(s: State, t: State, step: Step, p: nat, stamp: nat)
    requires Next(s, t, step) && stamp <= StampOf(s, p) && !AcceptsOlder(s, step, p, stamp)
    ensures stamp <= StampOf(t, p)
  {
  }

  /** A pad that took a frame keeps a stamp as high until an older frame is accepted. */
  lemma {:induction false} StampKept(trace: seq<State>, steps: seq<Step>, j: nat, i: nat, p: nat, stamp: nat)
    requires Run(trace, steps) && j < i < |trace| && stamp <= StampOf(trace[j + 1], p)
    requires NoOlderBetween(trace, steps, j, i, p, stamp)
    ensures stamp <= StampOf(trace[i], p)
  {
    if j + 1 < i {
      StampKept(trace, steps, j, i - 1, p, stamp);
      StampStays(trace[i - 1], trace[i], steps[i - 1], p, stamp);
    }
  }

  lemma OvertakingLands(trace: seq<State>, steps: seq<Step>, d: nat, j: nat, serial: nat, stamp: nat)
    requires Run(trace, steps) && Overtakes(trace, steps, d, j, serial, stamp)
    ensures serial < PADS == |trace[j + 1].injector.pads| && stamp <= trace[j + 1].injector.pads[serial].stamp
  {
    RunInv(trace, steps, j);
    RunOrdered(trace, steps, j);
    var k :| 0 <= k < |trace[j].commands| && trace[j].commands[k].command == Release(serial, stamp);
    assert trace[j].injector.pads[serial].releaseStamp < trace[j].commands[k].command.stamp;
    assert Next(trace[j], trace[j + 1], steps[j]);
  }

  /**
   In every run, the release applied at `i` finds its pad stamped with its own stamp or a
   later one, and so clears what its own binding pressed, exactly when a frame of that
   binding was drained for and processed while the release was queued, and no frame
   from before it was accepted since.
   */
  lemma ReleaseMeetsOwnInputIff(trace: seq<State>, steps: seq<Step>, i: nat, serial: nat, stamp: nat)
    requires Run(trace, steps) && i < |steps| && AppliesRelease(trace[i], steps[i], serial, stamp)
    ensures serial < |trace[i].injector.pads|
    ensures stamp <= trace[i].injector.pads[serial].stamp <==>
            exists d: nat, j: nat :: j < i && Overtakes(trace, steps, d, j, serial, stamp) &&
              NoOlderBetween(trace, steps, j, i, serial, stamp)
  {
    RunInv(trace, steps, i);
    assert trace[i].commands[0].command == Release(serial, stamp);
    assert Stamped(trace[i], serial, stamp);
    if stamp <= trace[i].injector.pads[serial].stamp {
      var d, j := MeetsOwnInput(trace, steps, i, serial, stamp);
    }
    if d: nat, j: nat :| j < i && Overtakes(trace, steps, d, j, serial, stamp) && NoOlderBetween(trace, steps, j, i, serial, stamp) {
      OvertakingLands(trace, steps, d, j, serial, stamp);
      StampKept(trace, steps, j, i, serial, stamp);
    }
  }

  /** The only drain a release can be overtaken at is one that stops at a retry claimed and not yet published. */
  lemma OvertakenBehindRetry(trace: seq<State>, steps: seq<Step>, d: nat, j: nat, serial: nat, stamp: nat)
    requires Run(trace, steps) && Overtakes(trace, steps, d, j, serial, stamp)
    ensures trace[d].commands != [] && trace[d].commands[0] == Entry(Retry, false)
  {
    RunOrdered(trace, steps, d);
    assert Next(trace[d], trace[d + 1], steps[d]);
    var k :| 0 <= k < |trace[d].commands| && trace[d].commands[k].command == Release(serial, stamp);
    var frame := trace[d].worker.frame;
    assert (frame.serial, frame.stamp).1 == frame.stamp;
  }

  lemma Extend(trace: seq<State>, steps: seq<Step>, t: State, step: Step)
    requires Run(trace, steps) && Next(trace[|steps|], t, step)
    ensures Run(trace + [t], steps + [step])
  {
  }

  const PRESS := Buttons(true, false, false)

  lemma BoundPad() returns (trace: seq<State>, steps: seq<Step>)
    ensures Run(trace, steps)
    ensures trace[|steps|] == State(1, map[1 := 1], {(1, 1)}, [], [],
                                    Injector(seq(PADS, _ => Pad(NONE, 0, 0)), false, NONE), Polling)
  {
    var s := State(0, map[], {}, [], [], Injector(seq(PADS, _ => Pad(NONE, 0, 0)), false, NONE), Polling);
    var s1 := s.(nextStamp := 1, bound := map[1 := 1]);
    Extend([s], [], s1, Bind(1));
    var s2 := s1.(published := {(1, 1)});
    Extend([s] + [s1], [Bind(1)], s2, PublishStamp(1));
    trace, steps := [s] + [s1] + [s2], [Bind(1)] + [PublishStamp(1)];
  }

  /** A press goes out, the host refuses it, and the housekeeping tick claims a cell for its retry. */
  lemma RefusedPress() returns (trace: seq<State>, steps: seq<Step>)
    ensures Run(trace, steps)
    ensures trace[|steps|] == State(1, map[1 := 1], {(1, 1)}, [], [Entry(Retry, false)],
                                    Injector(seq(PADS, _ => Pad(NONE, 0, 0))[1 := Pad(PRESS, 0, 1)], true, NONE), Polling)
  {
    var pads := seq(PADS, _ => Pad(NONE, 0, 0));
    trace, steps := BoundPad();
    var frame, s2 := Frame(1, 1, PRESS), trace[|steps|];
    var s3 := s2.(frames := [frame]);
    Extend(trace, steps, s3, PushFrame(frame));
    trace, steps := trace + [s3], steps + [PushFrame(frame)];
    var s4 := s3.(frames := [], worker := Draining(frame));
    Extend(trace, steps, s4, PopFrame);
    trace, steps := trace + [s4], steps + [PopFrame];
    var s5 := s4.(worker := Drained(frame));
    Extend(trace, steps, s5, EndDrain);
    trace, steps := trace + [s5], steps + [EndDrain];
    var s6 := s5.(worker := Polling, injector := Injector(pads[1 := Pad(PRESS, 0, 1)], true, NONE));
    Extend(trace, steps, s6, ProcessFrame(false));
    trace, steps := trace + [s6], steps + [ProcessFrame(false)];
    var s7 := s6.(commands := [Entry(Retry, false)]);
    Extend(trace, steps, s7, PostRetry);
    trace, steps := trace + [s7], steps + [PostRetry];
  }

  /**
   It happens: a release behind an unpublished retry is overtaken by a press of the
   binding it starts, and then clears it.
   */
  lemma ReleaseCanClearItsOwnBinding() returns (trace: seq<State>, steps: seq<Step>, i: nat)
    ensures Run(trace, steps) && i < |steps|
    ensures AppliesRelease(trace[i], steps[i], 1, 2) && |trace[i].injector.pads| == PADS == |trace[i + 1].injector.pads|
    ensures trace[i].injector.pads[1] == Pad(PRESS, 0, 2) && trace[i + 1].injector.pads[1].buttons == NONE
    ensures 1 in trace[i].bound && trace[i].bound[1] == 2
  {
    trace, steps := RefusedPress();
    var s7 := trace[|steps|];
    var frame := Frame(1, 2, PRESS);
    var s8 := s7.(nextStamp := 2, bound := map[1 := 2], commands := [Entry(Retry, false), Entry(Release(1, 2), false)]);
    Extend(trace, steps, s8, PostRelease(1));
    trace, steps := trace + [s8], steps + [PostRelease(1)];
    var s9 := s8.(commands := [Entry(Retry, false), Entry(Release(1, 2), true)]);
    Extend(trace, steps, s9, FinishPost(1));
    trace, steps := trace + [s9], steps + [FinishPost(1)];
    var s10 := s9.(published := {(1, 1), (1, 2)});
    Extend(trace, steps, s10, PublishStamp(1));
    trace, steps := trace + [s10], steps + [PublishStamp(1)];
    var s11 := s10.(frames := [frame]);
    Extend(trace, steps, s11, PushFrame(frame));
    trace, steps := trace + [s11], steps + [PushFrame(frame)];
    trace, steps, i := Overtaken(trace, steps);
  }

  lemma Overtaken(prefix: seq<State>, before: seq<Step>) returns (trace: seq<State>, steps: seq<Step>, i: nat)
    requires Run(prefix, before)
    requires prefix[|before|] == State(2, map[1 := 2], {(1, 1), (1, 2)}, [Frame(1, 2, PRESS)],
                                       [Entry(Retry, false), Entry(Release(1, 2), true)],
                                       Injector(seq(PADS, _ => Pad(NONE, 0, 0))[1 := Pad(PRESS, 0, 1)], true, NONE), Polling)
    ensures Run(trace, steps) && i < |steps|
    ensures AppliesRelease(trace[i], steps[i], 1, 2) && |trace[i].injector.pads| == PADS == |trace[i + 1].injector.pads|
    ensures trace[i].injector.pads[1] == Pad(PRESS, 0, 2) && trace[i + 1].injector.pads[1].buttons == NONE
    ensures 1 in trace[i].bound && trace[i].bound[1] == 2
  {
    trace, steps := prefix, before;
    var s := trace[|steps|];
    var frame := Frame(1, 2, PRESS);
    var s1 := s.(frames := [], worker := Draining(frame));
    Extend(trace, steps, s1, PopFrame);
    trace, steps := trace + [s1], steps + [PopFrame];
    var s2 := s1.(worker := Drained(frame));
    Extend(trace, steps, s2, EndDrain);
    trace, steps := trace + [s2], steps + [EndDrain];
    var s3 := s2.(worker := Polling, injector := Process(s2.injector, frame, true));
    Extend(trace, steps, s3, ProcessFrame(true));
    trace, steps := trace + [s3], steps + [ProcessFrame(true)];
    var s4 := s3.(commands := [Entry(Retry, true), Entry(Release(1, 2), true)]);
    Extend(trace, steps, s4, FinishPost(0));
    trace, steps := trace + [s4], steps + [FinishPost(0)];
    var s5 := s4.(commands := [Entry(Release(1, 2), true)]);
    Extend(trace, steps, s5, PopCommand(true));
    trace, steps := trace + [s5], steps + [PopCommand(true)];
    var s6 := s5.(commands := [], injector := Apply(s5.injector, Release(1, 2), true));
    Extend(trace, steps, s6, PopCommand(true));
    i := |steps|;
    trace, steps := trace + [s6], steps + [PopCommand(true)];
  }
}
