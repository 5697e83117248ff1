/**
 Motor ownership.  The game writes motor levels to the virtual pad, a haptic stream may
 be mixed in, and the client runs each command it is sent for that command's duration.
 The service owns the motors' state: it coalesces what the client already runs and
 re-sends a held level before its duration ends.  Times are milliseconds; a command
 reaches the client when it is sent.
 */
module Rumble {

  import opened Basics

  const WIRE_DURATION := 500
  const REFRESH := 200
  const HAPTIC_WIRE_DURATION := 100
  const HAPTIC_REFRESH := 50

  datatype Level = Level(strong: nat, weak: nat)

  const ZERO := Level(0, 0)

  predicate AtLeast(a: Level, b: Level) {
    b.strong <= a.strong && b.weak <= a.weak
  }

  /** Per motor, the stronger of the two: the least level at least both. */
  function Mix(a: Level, b: Level): (mix: Level)
    ensures AtLeast(mix, a) && AtLeast(mix, b)
    ensures forall l :: AtLeast(l, a) && AtLeast(l, b) ==> AtLeast(l, mix)
  {
    Level(Max(a.strong, b.strong), Max(a.weak, b.weak))
  }

  datatype Deadline = At(time: nat) | Never

  predicate Before(now: nat, deadline: Deadline) {
    deadline.Never? || now < deadline.time
  }

  datatype Motor = Motor(
    hid: Level,
    haptic: Level,
    hapticSentAt: nat,
    hapticExpiresAt: nat,
    last: Level,
    lastValid: bool,
    lastSentAt: nat,
    lastExpiresAt: Deadline)

  const FRESH := Motor(ZERO, ZERO, 0, 0, ZERO, false, 0, At(0))

  function Mixed(m: Motor, now: nat): Level {
    Mix(m.hid, if now < m.hapticExpiresAt then m.haptic else ZERO)
  }

  /** The client already runs this level and its command has not run out. */
  predicate Coalesces(m: Motor, now: nat) {
    m.lastValid && Before(now, m.lastExpiresAt) && m.last == Mixed(m, now)
  }

  function Send(m: Motor, now: nat, duration: nat): Motor {
    m.(last := Mixed(m, now), lastValid := true, lastSentAt := now,
       lastExpiresAt := if duration == 0 then Never else At(now + duration))
  }

  function Forward(m: Motor, now: nat, duration: nat, force: bool): (Motor, bool) {
    if !force && Coalesces(m, now) then (m, false) else (Send(m, now, duration), true)
  }

  function HandleHid(m: Motor, now: nat, level: Level): (Motor, bool) {
    Forward(m.(hid := level), now, WIRE_DURATION, false)
  }

  function HandleHaptic(m: Motor, now: nat, level: Level): (Motor, bool) {
    var h := m.(haptic := level, hapticExpiresAt := now + HAPTIC_WIRE_DURATION);
    var duration := if m.hid != ZERO then WIRE_DURATION else HAPTIC_WIRE_DURATION;
    var (f, sent) := Forward(h, now, duration, level != ZERO && now - m.hapticSentAt >= HAPTIC_REFRESH);
    (if sent then f.(hapticSentAt := now) else f, sent)
  }

  function Refresh(m: Motor, now: nat): (Motor, bool) {
    if m.hid != ZERO then
      if now - m.lastSentAt >= REFRESH then Forward(m, now, WIRE_DURATION, true) else (m, false)
    else if now >= m.hapticExpiresAt && m.lastValid && m.last != ZERO then
      Forward(m.(haptic := ZERO), now, HAPTIC_WIRE_DURATION, false)
    else (m, false)
  }

  /** Binding a pad: a fresh motor takes the level the pad was last written, and sends it if it is held. */
  function Seeded(level: Level, now: nat): (Motor, bool) {
    var m := FRESH.(hid := level);
    if level != ZERO then Forward(m, now, WIRE_DURATION, false) else (m, false)
  }

  // ---------- the controller's own fields ----------

  class Controller {
    var hidRumble: Level
    var hapticRumble: Level
    var hapticRumbleSentAt: nat
    var hapticRumbleExpiresAt: nat
    var lastRumble: Level
    var lastRumbleValid: bool
    var lastRumbleSentAt: nat
    var lastRumbleExpiresAt: Deadline

    ghost function Model(): Motor
      reads this
    {
      Motor(hidRumble, hapticRumble, hapticRumbleSentAt, hapticRumbleExpiresAt,
            lastRumble, lastRumbleValid, lastRumbleSentAt, lastRumbleExpiresAt)
    }

    /** The last command is for the mix of both sources and has not run out. */
    ghost predicate CommandsMix(now: nat)
      reads this
    {
      lastRumbleValid && lastRumble == Mixed(Model(), now) && Before(now, lastRumbleExpiresAt)
    }

    method Reset()
      modifies this
      ensures Model() == FRESH
    {
      lastRumble := ZERO;
      lastRumbleValid := false;
      lastRumbleSentAt := 0;
      lastRumbleExpiresAt := At(0);
      hidRumble := ZERO;
      hapticRumble := ZERO;
      hapticRumbleSentAt := 0;
      hapticRumbleExpiresAt := 0;
    }

    method ForwardRumble(now: nat, duration: nat, force: bool) returns (sent: bool)
      modifies this
      ensures (Model(), sent) == Forward(old(Model()), now, duration, force)
      ensures CommandsMix(now)
    {
      var hapticLive := now < hapticRumbleExpiresAt;
      var lastExpired := lastRumbleValid && !Before(now, lastRumbleExpiresAt);
      var strong := Max(hidRumble.strong, if hapticLive then hapticRumble.strong else 0);
      var weak := Max(hidRumble.weak, if hapticLive then hapticRumble.weak else 0);
      if !force && lastRumbleValid && !lastExpired && lastRumble.strong == strong && lastRumble.weak == weak {
        return false;
      }
      lastRumble := Level(strong, weak);
      lastRumbleValid := true;
      lastRumbleSentAt := now;
      lastRumbleExpiresAt := if duration == 0 then Never else At(now + duration);
      return true;
    }

    method HandleRumble(now: nat, level: Level) returns (sent: bool)
      modifies this
      ensures (Model(), sent) == HandleHid(old(Model()), now, level)
      ensures CommandsMix(now) && AtLeast(lastRumble, level)
    {
      hidRumble := level;
      sent := ForwardRumble(now, WIRE_DURATION, false);
    }

    method ReduceHaptic(now: nat, level: Level) returns (sent: bool)
      modifies this
      ensures (Model(), sent) == HandleHaptic(old(Model()), now, level)
      ensures CommandsMix(now) && AtLeast(lastRumble, level) && AtLeast(lastRumble, hidRumble)
    {
      hapticRumble := level;
      hapticRumbleExpiresAt := now + HAPTIC_WIRE_DURATION;
      var hidContributes := hidRumble.strong != 0 || hidRumble.weak != 0;
      var duration := if hidContributes then WIRE_DURATION else HAPTIC_WIRE_DURATION;
      var steadyNonZero := level.strong != 0 || level.weak != 0;
      var refreshDue := now - hapticRumbleSentAt >= HAPTIC_REFRESH;
      sent := ForwardRumble(now, duration, steadyNonZero && refreshDue);
      if sent {
        hapticRumbleSentAt := now;
      }
    }

    method RefreshRumble(now: nat) returns (sent: bool)
      modifies this
      ensures (Model(), sent) == Refresh(old(Model()), now)
      ensures hidRumble == ZERO && hapticRumbleExpiresAt <= now && lastRumbleValid ==> lastRumble == ZERO
    {
      var hidHeld := hidRumble.strong != 0 || hidRumble.weak != 0;
      if hidHeld {
        if now - lastRumbleSentAt >= REFRESH {
          sent := ForwardRumble(now, WIRE_DURATION, true);
          return;
        }
        return false;
      }
      var hapticStale := now >= hapticRumbleExpiresAt;
      var cacheNonZero := lastRumbleValid && (lastRumble.strong != 0 || lastRumble.weak != 0);
      if hapticStale && cacheNonZero {
        hapticRumble := ZERO;
        sent := ForwardRumble(now, HAPTIC_WIRE_DURATION, false);
        return;
      }
      return false;
    }

    method Bind(motors: Level, now: nat) returns (sent: bool)
      modifies this
      ensures (Model(), sent) == Seeded(motors, now)
      ensures hidRumble == motors && (motors != ZERO ==> sent && CommandsMix(now) && lastRumble == motors)
    {
      Reset();
      hidRumble := motors;
      var held := hidRumble.strong != 0 || hidRumble.weak != 0;
      if held && !lastRumbleValid {
        sent := ForwardRumble(now, WIRE_DURATION, false);
        return;
      }
      return false;
    }
  }

  // ---------- the system ----------

  /** The client runs its last command until the command runs out. */
  datatype Client = Client(level: Level, until: Deadline)

  function Running(client: Client, now: nat): Level {
    if Before(now, client.until) then client.level else ZERO
  }

  /** The backend's callback stores the level, then delivers it under the lock. */
  datatype Writer = Idle | Stored(level: Level)

  /** `written` is the last level stored since the pad was plugged; ticks come at most `gap` apart. */
  datatype State = State(
    now: nat,
    lastTick: nat,
    gap: nat,
    plugged: bool,
    bound: bool,
    hidMotors: Level,
    writer: Writer,
    written: Level,
    motor: Motor,
    client: Client)

  datatype Step =
    | Advance(ms: nat)
    | Tick
    | Plug
    | Bind
    | Unplug
    | Store(level: Level)
    | Deliver
    | Haptic(level: Level)

  /** Whatever the client runs ends within one long command. */
  predicate RunsOut(s: State) {
    s.client.until.At? && s.client.until.time <= s.now + WIRE_DURATION
  }

  predicate Init(s: State) {
    && s.lastTick == s.now && !s.plugged && !s.bound && s.writer == Idle
    && RunsOut(s)
  }

  /** The motor's new state, and the command that went out with it. */
  function Commanded(s: State, result: (Motor, bool)): State {
    s.(motor := result.0, client := if result.1 then Client(result.0.last, result.0.lastExpiresAt) else s.client)
  }

  predicate Next(s: State, t: State, step: Step) {
    match step
    case Advance(ms) =>
      s.now + ms <= s.lastTick + s.gap && t == s.(now := s.now + ms)
    case Tick =>
      t == (if s.bound then Commanded(s, Refresh(s.motor, s.now)) else s).(lastTick := s.now)
    case Plug =>
      !s.plugged && s.writer == Idle && t == s.(plugged := true, hidMotors := ZERO, written := ZERO)
    case Bind =>
      s.plugged && !s.bound && t == Commanded(s, Seeded(s.hidMotors, s.now)).(bound := true)
    case Unplug =>
      s.plugged && s.writer == Idle && t == s.(plugged := false, bound := false)
    case Store(level) =>
      s.plugged && s.writer == Idle && t == s.(hidMotors := level, written := level, writer := Stored(level))
    case Deliver =>
      && s.writer.Stored?
      && t == (if s.bound then Commanded(s, HandleHid(s.motor, s.now, s.writer.level)) else s).(writer := Idle)
    case Haptic(level) =>
      s.bound && t == Commanded(s, HandleHaptic(s.motor, s.now, level))
  }

  // ---------- what every step keeps ----------

  predicate WriterInv(s: State) {
    && (s.bound ==> s.plugged)
    && (s.writer.Stored? ==> s.plugged && s.writer.level == s.written)
    && (s.plugged ==> s.hidMotors == s.written)
    && (s.bound && s.writer.Idle? ==> s.motor.hid == s.written)
  }

  predicate Long(m: Motor) {
    m.lastExpiresAt == At(m.lastSentAt + WIRE_DURATION)
  }

  predicate Short(m: Motor) {
    m.lastExpiresAt == At(m.lastSentAt + HAPTIC_WIRE_DURATION)
  }

  predicate MotorInv(s: State) {
    && s.lastTick <= s.now <= s.lastTick + s.gap
    && (s.bound ==>
          && s.motor.hapticSentAt <= s.motor.lastSentAt <= s.now
          && (s.motor.hid != ZERO ==> s.motor.lastValid)
          // a haptic level is re-sent while its windows keep coming
          && (s.motor.haptic != ZERO ==>
                s.motor.hapticExpiresAt < s.motor.hapticSentAt + HAPTIC_REFRESH + HAPTIC_WIRE_DURATION)
          && (s.motor.lastValid ==>
                && s.client == Client(s.motor.last, s.motor.lastExpiresAt)
                && (Long(s.motor) || Short(s.motor))
                && AtLeast(s.motor.last, s.motor.hid)
                && (s.motor.hid == ZERO && s.motor.last != ZERO ==> s.motor.haptic == s.motor.last)))
  }

  lemma MotorInvHaptic(s: State, t: State, step: Step)
    requires MotorInv(s) && Next(s, t, step) && step.Haptic?
    ensures MotorInv(t)
  {
  }

  lemma MotorInvHid(s: State, t: State, step: Step)
    requires MotorInv(s) && Next(s, t, step) && (step.Deliver? || step.Bind?)
    ensures MotorInv(t)
  {
  }

  lemma MotorInvNext(s: State, t: State, step: Step)
    requires MotorInv(s) && Next(s, t, step)
    ensures MotorInv(t)
  {
    if step.Haptic? {
      MotorInvHaptic(s, t, step);
    } else if step.Deliver? || step.Bind? {
      MotorInvHid(s, t, step);
    }
  }

  lemma WriterInvNext(s: State, t: State, step: Step)
    requires WriterInv(s) && Next(s, t, step)
    ensures WriterInv(t)
  {
  }

  /** A HID write that raises the motors from zero and is taken for a haptic-only command already running. */
  predicate RaisedOnShort(s: State, step: Step) {
    && step.Deliver? && s.bound && s.writer.Stored? && s.writer.level != ZERO && s.motor.hid == ZERO
    && Coalesces(s.motor.(hid := s.writer.level), s.now) && Short(s.motor)
  }

  /** A tick has looked in time at a level that rides on a long command. */
  predicate HeldInv(s: State) {
    && s.gap <= WIRE_DURATION - REFRESH
    && (s.bound && Long(s.motor) && (s.motor.hid != ZERO || (s.motor.lastValid && s.motor.last != ZERO)) ==>
          s.lastTick < s.motor.lastSentAt + REFRESH)
  }

  lemma HeldInvNext(s: State, t: State, step: Step)
    requires MotorInv(s) && HeldInv(s) && Next(s, t, step)
    ensures HeldInv(t)
  {
  }

  ghost predicate Run(trace: seq<State>, steps: seq<Step>) {
    && |trace| == |steps| + 1
    && Init(trace[0])
    && forall i {:trigger steps[i]} :: 0 <= i < |steps| ==> Next(trace[i], trace[i + 1], steps[i])
  }

  lemma {:induction false} RunInv(trace: seq<State>, steps: seq<Step>, i: nat)
    requires Run(trace, steps) && i < |trace|
    ensures WriterInv(trace[i]) && MotorInv(trace[i]) && RunsOut(trace[i]) && trace[i].gap == trace[0].gap
  {
    if i > 0 {
      RunInv(trace, steps, i - 1);
      WriterInvNext(trace[i - 1], trace[i], steps[i - 1]);
      MotorInvNext(trace[i - 1], trace[i], steps[i - 1]);
    }
  }

  lemma {:induction false} RunHeld(trace: seq<State>, steps: seq<Step>, i: nat)
    requires Run(trace, steps) && i < |trace| && trace[0].gap <= WIRE_DURATION - REFRESH
    ensures HeldInv(trace[i])
  {
    if i > 0 {
      RunHeld(trace, steps, i - 1);
      RunInv(trace, steps, i - 1);
      HeldInvNext(trace[i - 1], trace[i], steps[i - 1]);
    }
  }

  // ---------- over whole runs ----------

  /** In every run, a bound pad holds the level last written since the plug, once its write is delivered. */
  lemma NothingWrittenIsLost(trace: seq<State>, steps: seq<Step>, i: nat)
    requires Run(trace, steps) && i < |trace| && trace[i].bound
    ensures match trace[i].writer
            case Idle => trace[i].motor.hid == trace[i].written
            case Stored(level) => level == trace[i].written
  {
    RunInv(trace, steps, i);
  }

  /** A command goes out at this step. */
  predicate Sends(s: State, step: Step) {
    match step
    case Tick => s.bound && Refresh(s.motor, s.now).1
    case Bind => Seeded(s.hidMotors, s.now).1
    case Deliver => s.bound && s.writer.Stored? && HandleHid(s.motor, s.now, s.writer.level).1
    case Haptic(level) => s.bound && HandleHaptic(s.motor, s.now, level).1
    case _ => false
  }

  /** The command running at `k` is still the last one at `i`, under the same binding. */
  ghost predicate SameCommand(trace: seq<State>, steps: seq<Step>, k: nat, i: nat)
    requires |trace| == |steps| + 1 && i <= |steps|
  {
    forall m {:trigger steps[m]} :: k <= m < i ==> !Sends(trace[m], steps[m]) && !steps[m].Unplug?
  }

  lemma SameCommandNext(trace: seq<State>, steps: seq<Step>, k: nat, i: nat)
    requires |trace| == |steps| + 1 && k < i <= |steps| && SameCommand(trace, steps, k, i - 1)
    requires !Sends(trace[i - 1], steps[i - 1]) && !steps[i - 1].Unplug?
    ensures SameCommand(trace, steps, k, i)
  {
  }

  lemma CommandStep(s: State, t: State, step: Step)
    requires s.bound && Next(s, t, step) && !Sends(s, step) && !step.Unplug?
    ensures t.bound && t.client == s.client && t.motor.lastValid == s.motor.lastValid
    ensures t.motor.lastSentAt == s.motor.lastSentAt && t.motor.lastExpiresAt == s.motor.lastExpiresAt
  {
  }

  lemma {:induction false} CommandKept(trace: seq<State>, steps: seq<Step>, k: nat, i: nat)
    requires Run(trace, steps) && k <= i < |trace| && trace[k].bound && SameCommand(trace, steps, k, i)
    ensures trace[i].bound && trace[i].client == trace[k].client
    ensures trace[i].motor.lastSentAt == trace[k].motor.lastSentAt
  {
    if k < i {
      CommandKept(trace, steps, k, i - 1);
      CommandStep(trace[i - 1], trace[i], steps[i - 1]);
    }
  }

  /** A level comes to be held on a short command only by a raise taken for it. */
  lemma HeldOnShort(s: State, t: State, step: Step)
    requires MotorInv(s) && Next(s, t, step) && t.bound && t.motor.hid != ZERO && Short(t.motor)
    ensures s.bound && !Sends(s, step) && !step.Unplug?
    ensures RaisedOnShort(s, step) || (s.motor.hid != ZERO && Short(s.motor))
  {
  }

  lemma {:induction false} RaisedAt(trace: seq<State>, steps: seq<Step>, i: nat) returns (k: nat)
    requires Run(trace, steps) && i < |trace| && trace[i].bound && trace[i].motor.hid != ZERO && Short(trace[i].motor)
    ensures k < i && RaisedOnShort(trace[k], steps[k]) && SameCommand(trace, steps, k, i)
  {
    RunInv(trace, steps, i - 1);
    HeldOnShort(trace[i - 1], trace[i], steps[i - 1]);
    if RaisedOnShort(trace[i - 1], steps[i - 1]) {
      k := i - 1;
    } else {
      k := RaisedAt(trace, steps, i - 1);
    }
    SameCommandNext(trace, steps, k, i);
  }

  /**
   In every run with ticks at most 300 ms apart, a client runs at least the held level, if
   and only if it is not past the end of a haptic-only command that the write raising the
   level was taken for, with no command sent since.
   */
  lemma HeldLevelRunsIff(trace: seq<State>, steps: seq<Step>, i: nat)
    requires Run(trace, steps) && i < |trace| && trace[0].gap <= WIRE_DURATION - REFRESH
    requires trace[i].bound && trace[i].motor.hid != ZERO
    ensures AtLeast(Running(trace[i].client, trace[i].now), trace[i].motor.hid) <==>
            !exists k: nat :: k < i && RaisedOnShort(trace[k], steps[k]) && SameCommand(trace, steps, k, i) &&
              trace[k].motor.lastSentAt + HAPTIC_WIRE_DURATION <= trace[i].now
  {
    RunInv(trace, steps, i);
    RunHeld(trace, steps, i);
    if Short(trace[i].motor) {
      var k := RaisedAt(trace, steps, i);
      CommandKept(trace, steps, k, i);
    }
    if k: nat :| k < i && RaisedOnShort(trace[k], steps[k]) && SameCommand(trace, steps, k, i) &&
                 trace[k].motor.lastSentAt + HAPTIC_WIRE_DURATION <= trace[i].now {
      RunInv(trace, steps, k);
      CommandKept(trace, steps, k, i);
      assert Running(trace[i].client, trace[i].now) == ZERO;
    }
  }

  /** The last haptic window of the binding, and when it ends; none before the first. */
  function HapticBy(trace: seq<State>, steps: seq<Step>, i: nat): (Level, nat)
    requires i <= |steps| < |trace|
  {
    if i == 0 || steps[i - 1].Bind? then (ZERO, 0)
    else if steps[i - 1].Haptic? then (steps[i - 1].level, trace[i - 1].now + HAPTIC_WIRE_DURATION)
    else HapticBy(trace, steps, i - 1)
  }

  /** The haptic level in force. */
  function HapticNow(trace: seq<State>, steps: seq<Step>, i: nat): Level
    requires i <= |steps| < |trace|
  {
    if trace[i].now < HapticBy(trace, steps, i).1 then HapticBy(trace, steps, i).0 else ZERO
  }

  /** The motor remembers the last window; one that is over may be forgotten. */
  predicate Remembers(s: State, window: (Level, nat)) {
    s.bound ==> s.motor.hapticExpiresAt == window.1 && (s.now < window.1 ==> s.motor.haptic == window.0)
  }

  lemma RemembersStep(s: State, t: State, step: Step, window: (Level, nat))
    requires Next(s, t, step) && Remembers(s, window)
    ensures Remembers(t, if step.Bind? then (ZERO, 0)
                         else if step.Haptic? then (step.level, s.now + HAPTIC_WIRE_DURATION) else window)
  {
  }

  lemma {:induction false} RunRemembers(trace: seq<State>, steps: seq<Step>, i: nat)
    requires Run(trace, steps) && i < |trace|
    ensures Remembers(trace[i], HapticBy(trace, steps, i))
  {
    if i > 0 {
      RunRemembers(trace, steps, i - 1);
      RemembersStep(trace[i - 1], trace[i], steps[i - 1], HapticBy(trace, steps, i - 1));
    }
  }

  lemma SentLevel(s: State, t: State, step: Step)
    requires Next(s, t, step) && Sends(s, step)
    ensures t.bound && t.now == s.now && t.client.level == Mixed(t.motor, t.now)
  {
  }

  /**
   In every run, every command sent carries the mix of the level the game holds and the
   last haptic window of the binding, if that has not ended: the least level at least both.
   */
  lemma CommandIsTheMix(trace: seq<State>, steps: seq<Step>, i: nat)
    requires Run(trace, steps) && i < |steps| && Sends(trace[i], steps[i])
    ensures var hid, haptic, sent := trace[i + 1].motor.hid, HapticNow(trace, steps, i + 1), trace[i + 1].client.level;
      && AtLeast(sent, hid) && AtLeast(sent, haptic)
      && forall l :: AtLeast(l, hid) && AtLeast(l, haptic) ==> AtLeast(l, sent)
  {
    assert Next(trace[i], trace[i + 1], steps[i]);
    SentLevel(trace[i], trace[i + 1], steps[i]);
    RunRemembers(trace, steps, i + 1);
  }

  predicate HidOnly(steps: seq<Step>, i: nat)
    requires i <= |steps|
  {
    forall k :: 0 <= k < i ==> !steps[k].Haptic?
  }

  /** With no haptic stream a haptic level never comes up. */
  lemma {:induction false} NoHapticLevel(trace: seq<State>, steps: seq<Step>, i: nat)
    requires Run(trace, steps) && i < |trace| && HidOnly(steps, i)
    ensures trace[i].bound ==>
      trace[i].motor.haptic == ZERO && (trace[i].motor.lastValid ==> trace[i].motor.last == trace[i].motor.hid)
  {
    if i > 0 {
      NoHapticLevel(trace, steps, i - 1);
      RunInv(trace, steps, i - 1);
      assert Next(trace[i - 1], trace[i], steps[i - 1]);
    }
  }

  predicate DeliveredBetween(steps: seq<Step>, b: nat, i: nat)
    requires i <= |steps|
  {
    exists k :: b < k < i && steps[k].Deliver?
  }

  /** The binding a bound pad is in; nothing is sent under it exactly if it found no level and none was delivered since. */
  lemma {:induction false} BoundAt(trace: seq<State>, steps: seq<Step>, i: nat) returns (b: nat)
    requires Run(trace, steps) && i < |trace| && trace[i].bound && HidOnly(steps, i)
    ensures b < i && steps[b].Bind? && forall k :: b < k < i ==> !steps[k].Bind? && !steps[k].Unplug?
    ensures !trace[i].motor.lastValid <==> trace[b].hidMotors == ZERO && !DeliveredBetween(steps, b, i)
    ensures !trace[i].motor.lastValid ==> trace[i].client == trace[b].client
  {
    assert Next(trace[i - 1], trace[i], steps[i - 1]);
    if steps[i - 1].Bind? {
      b := i - 1;
    } else {
      b := BoundAt(trace, steps, i - 1);
      DeliveredStep(steps, b, i);
      RunInv(trace, steps, i - 1);
      SendsStep(trace[i - 1], trace[i], steps[i - 1]);
    }
  }

  lemma DeliveredStep(steps: seq<Step>, b: nat, i: nat)
    requires b + 1 < i <= |steps|
    ensures DeliveredBetween(steps, b, i) <==> DeliveredBetween(steps, b, i - 1) || steps[i - 1].Deliver?
  {
    if k :| b < k < i && steps[k].Deliver? {
      assert k < i - 1 || k == i - 1;
    }
    if k :| b < k < i - 1 && steps[k].Deliver? {
      assert b < k < i;
    }
  }

  lemma SendsStep(s: State, t: State, step: Step)
    requires MotorInv(s) && Next(s, t, step) && s.bound && t.bound && !step.Haptic?
    ensures t.motor.lastValid <==> s.motor.lastValid || step.Deliver?
    ensures !t.motor.lastValid ==> t.client == s.client
  {
  }

  /**
   In every run with no haptic stream and ticks at most 300 ms apart, a client runs
   exactly the held level, the one the game last wrote, unless its binding found no
   level, nothing was delivered under it yet, and the command the client was running
   at the bind has not run out; and that takes 500 ms at most.
   */
  lemma HidOnlyRunsExactlyIff(trace: seq<State>, steps: seq<Step>, i: nat) returns (b: nat)
    requires Run(trace, steps) && i < |trace| && trace[0].gap <= WIRE_DURATION - REFRESH
    requires HidOnly(steps, i) && trace[i].bound
    ensures b < i && steps[b].Bind? && forall k :: b < k < i ==> !steps[k].Bind? && !steps[k].Unplug?
    ensures Running(trace[i].client, trace[i].now) == trace[i].motor.hid <==>
            trace[b].hidMotors != ZERO || DeliveredBetween(steps, b, i) || Running(trace[b].client, trace[i].now) == ZERO
    ensures trace[b].now + WIRE_DURATION <= trace[i].now ==> Running(trace[b].client, trace[i].now) == ZERO
    ensures trace[i].writer == Idle ==> trace[i].motor.hid == trace[i].written
  {
    forall k: nat | k < i ensures !RaisedOnShort(trace[k], steps[k]) {
      NoHapticLevel(trace, steps, k);
      RunInv(trace, steps, k);
    }
    NoHapticLevel(trace, steps, i);
    RunInv(trace, steps, i);
    if trace[i].motor.hid != ZERO {
      HeldLevelRunsIff(trace, steps, i);
    }
    b := BoundAt(trace, steps, i);
    RunInv(trace, steps, b);
  }

  /** The exception happens: a pad is unplugged under a held level, plugged again and bound. */
  lemma StaleCommandRuns(level: Level) returns (trace: seq<State>, steps: seq<Step>)
    requires level != ZERO
    ensures Run(trace, steps) && trace[0].gap == 0 && HidOnly(steps, |steps|)
    ensures var s := trace[|steps|];
      && s.bound && s.writer == Idle && s.motor.hid == s.written == ZERO && Running(s.client, s.now) == level
  {
    var s0 := State(1, 1, 0, false, false, ZERO, Idle, ZERO, FRESH, Client(ZERO, At(0)));
    var s1 := s0.(plugged := true);
    var s2 := s1.(hidMotors := level, written := level, writer := Stored(level));
    var s3 := s2.(writer := Idle);
    var sent := FRESH.(hid := level, last := level, lastValid := true, lastSentAt := 1, lastExpiresAt := At(501));
    var s4 := s3.(bound := true, motor := sent, client := Client(level, At(501)));
    var s5 := s4.(plugged := false, bound := false);
    var s6 := s5.(plugged := true, hidMotors := ZERO, written := ZERO);
    var s7 := s6.(bound := true, motor := FRESH);
    trace := [s0, s1, s2, s3, s4, s5, s6, s7];
    steps := [Plug, Store(level), Deliver, Bind, Unplug, Plug, Bind];
  }

  /** A tick that finds neither source stops the motors. */
  lemma TickStops(s: State, t: State)
    requires MotorInv(s) && Next(s, t, Tick) && s.bound && s.motor.lastValid
    requires s.motor.hid == ZERO && s.motor.hapticExpiresAt <= s.now
    ensures Running(t.client, t.now) == ZERO
  {
  }

  // ---------- both conditions are needed ----------

  predicate Quiet(step: Step) {
    step.Advance? || step.Tick?
  }

  /** Steps taken from some state, not necessarily the first. */
  ghost predicate Path(trace: seq<State>, steps: seq<Step>) {
    && |trace| == |steps| + 1
    && forall i {:trigger steps[i]} :: 0 <= i < |steps| ==> Next(trace[i], trace[i + 1], steps[i])
  }

  lemma {:induction false} QuietPath(trace: seq<State>, steps: seq<Step>, i: nat)
    requires Path(trace, steps) && i < |trace| && forall k :: 0 <= k < |steps| ==> Quiet(steps[k])
    requires trace[0].bound && trace[0].motor.hid != ZERO && trace[i].now < trace[0].motor.lastSentAt + REFRESH
    ensures trace[i].bound && trace[i].motor == trace[0].motor && trace[i].client == trace[0].client
  {
    if i > 0 {
      assert Next(trace[i - 1], trace[i], steps[i - 1]);
      QuietPath(trace, steps, i - 1);
    }
  }

  /**
   Every raise taken for a haptic-only command goes quiet: if the haptic stream stops
   there and the game holds its level, the client stands still from the command's end
   until the refresh is due, however often the tick runs.
   */
  lemma RaisedOnShortGoesQuiet(s: State, trace: seq<State>, steps: seq<Step>, i: nat)
    requires MotorInv(s) && RaisedOnShort(s, Deliver) && Path(trace, steps) && Next(s, trace[0], Deliver)
    requires i < |trace| && forall k :: 0 <= k < |steps| ==> Quiet(steps[k])
    requires s.motor.lastSentAt + HAPTIC_WIRE_DURATION <= trace[i].now < s.motor.lastSentAt + REFRESH
    ensures trace[i].bound && trace[i].motor.hid == s.writer.level != ZERO
    ensures Running(trace[i].client, trace[i].now) == ZERO
  {
    QuietPath(trace, steps, i);
  }

  /** Such a raise happens, and the client goes quiet under a held level with ticks at most 100 ms apart. */
  lemma RaisedOnShortHappens(level: Level) returns (trace: seq<State>, steps: seq<Step>, i: nat)
    requires level != ZERO
    ensures Run(trace, steps) && trace[0].gap == HAPTIC_WIRE_DURATION && i < |steps| && RaisedOnShort(trace[i], steps[i])
    ensures var s := trace[|steps|];
      && s.bound && s.writer == Idle && s.motor.hid == s.written == level && Running(s.client, s.now) == ZERO
  {
    var s0 := State(100, 100, HAPTIC_WIRE_DURATION, false, false, ZERO, Idle, ZERO, FRESH, Client(ZERO, At(0)));
    var s1 := s0.(plugged := true);
    var s2 := s1.(bound := true);
    var buzz := FRESH.(haptic := level, hapticSentAt := 100, hapticExpiresAt := 200,
                       last := level, lastValid := true, lastSentAt := 100, lastExpiresAt := At(200));
    var s3 := s2.(motor := buzz, client := Client(level, At(200)));
    var s4 := s3.(hidMotors := level, written := level, writer := Stored(level));
    var s5 := s4.(writer := Idle, motor := buzz.(hid := level));
    var s6 := s5.(now := 200);
    trace := [s0, s1, s2, s3, s4, s5, s6];
    steps := [Plug, Bind, Haptic(level), Store(level), Deliver, Advance(100)];
    i := 4;
  }

  /** A longer gap lets a held level lapse. */
  lemma LongerGapLapses(gap: nat, level: Level) returns (trace: seq<State>, steps: seq<Step>)
    requires gap > WIRE_DURATION - REFRESH && level != ZERO
    ensures Run(trace, steps) && trace[0].gap == gap && HidOnly(steps, |steps|)
    ensures var s := trace[|steps|]; s.bound && s.motor.hid == level && Running(s.client, s.now) == ZERO
  {
    var s0 := State(1, 1, gap, false, false, ZERO, Idle, ZERO, FRESH, Client(ZERO, At(0)));
    var s1 := s0.(plugged := true);
    var s2 := s1.(hidMotors := level, written := level, writer := Stored(level));
    var s3 := s2.(writer := Idle);
    var sent := FRESH.(hid := level, last := level, lastValid := true, lastSentAt := 1, lastExpiresAt := At(501));
    var s4 := s3.(bound := true, motor := sent, client := Client(level, At(501)));
    var s5 := s4.(now := 200);
    var s6 := s5.(lastTick := 200);
    var s7 := s6.(now := 501);
    trace := [s0, s1, s2, s3, s4, s5, s6, s7];
    steps := [Plug, Store(level), Deliver, Bind, Advance(199), Tick, Advance(301)];
  }
}
