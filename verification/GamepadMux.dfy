/**
 The composite gamepad port: one serial space over several backends, the owner of each
 serial recorded when it is plugged.  A child answers as it likes within the port's
 contract: a refused plug leaves nothing behind, a confirmed unplug and a closed bus
 leave nothing, an unconfirmed unplug may leave the device.
 */
module GamepadMux {

  import opened Basics
  import SerialPool

  datatype Port = Port(id: string, supports: set<nat>)

  /** A child asked to plug a device or to open its bus, and its answer. */
  datatype Event = Plug(serial: nat, identity: nat, child: nat, ok: bool) | Open(child: nat, ok: bool)

  /** A child asked to unplug a serial, and whether it confirmed. */
  datatype Unplug = Unplug(serial: nat, child: nat, confirmed: bool)

  /** The first child with the preferred id. */
  function Preferred(ports: seq<Port>, backend: string, from: nat): (c: Option<nat>)
    requires from <= |ports|
    ensures c.Some? ==> from <= c.value < |ports| && ports[c.value].id == backend
    decreases |ports| - from
  {
    if from == |ports| then None
    else if ports[from].id == backend then Some(from)
    else Preferred(ports, backend, from + 1)
  }

  /** The supporting children among the first n, in preference order, but for one already tried. */
  function Supporting(ports: seq<Port>, identity: nat, tried: Option<nat>, n: nat): seq<nat>
    requires n <= |ports|
  {
    if n == 0 then []
    else Supporting(ports, identity, tried, n - 1) +
         if Some(n - 1) != tried && identity in ports[n - 1].supports then [n - 1] else []
  }

  function Tried(ports: seq<Port>, backend: string): Option<nat> {
    if backend == "" then None else Preferred(ports, backend, 0)
  }

  function First(ports: seq<Port>, identity: nat, tried: Option<nat>): seq<nat>
    requires tried.Some? ==> tried.value < |ports|
  {
    if tried.Some? && identity in ports[tried.value].supports then [tried.value] else []
  }

  /** The order in which children are asked to plug: the preferred one, then the rest. */
  function AskOrder(ports: seq<Port>, identity: nat, backend: string): seq<nat> {
    First(ports, identity, Tried(ports, backend)) + Supporting(ports, identity, Tried(ports, backend), |ports|)
  }

  ghost predicate Rising(xs: seq<nat>) {
    forall i, j :: 0 <= i < j < |xs| ==> xs[i] < xs[j]
  }

  lemma {:induction false} SupportingIs(ports: seq<Port>, identity: nat, tried: Option<nat>, n: nat)
    requires n <= |ports|
    ensures Rising(Supporting(ports, identity, tried, n))
    ensures forall c: nat :: c in Supporting(ports, identity, tried, n) <==> c < n && Some(c) != tried && identity in ports[c].supports
  {
    if n > 0 {
      SupportingIs(ports, identity, tried, n - 1);
      var rest := Supporting(ports, identity, tried, n - 1);
      forall i | 0 <= i < |rest| ensures rest[i] < n - 1 {
        assert rest[i] in rest;
      }
    }
  }

  lemma {:induction false} PreferredIsFirst(ports: seq<Port>, backend: string, from: nat)
    requires from <= |ports|
    ensures match Preferred(ports, backend, from)
            case Some(p) => from <= p < |ports| && ports[p].id == backend && forall c :: from <= c < p ==> ports[c].id != backend
            case None => forall c :: from <= c < |ports| ==> ports[c].id != backend
    decreases |ports| - from
  {
    if from < |ports| && ports[from].id != backend {
      PreferredIsFirst(ports, backend, from + 1);
    }
  }

  /** The first child of the preferred id, if one is named and that child supports the identity. */
  ghost predicate IsPreferred(ports: seq<Port>, identity: nat, backend: string, p: nat) {
    && backend != "" && p < |ports| && ports[p].id == backend && identity in ports[p].supports
    && forall c :: 0 <= c < p ==> ports[c].id != backend
  }

  lemma TriedIsPreferred(ports: seq<Port>, identity: nat, backend: string, p: nat)
    ensures IsPreferred(ports, identity, backend, p) <==> First(ports, identity, Tried(ports, backend)) == [p]
  {
    PreferredIsFirst(ports, backend, 0);
  }

  /** Exactly the children that support the identity are asked, each once. */
  lemma AskOrderComplete(ports: seq<Port>, identity: nat, backend: string)
    ensures var order := AskOrder(ports, identity, backend);
      && (forall c: nat :: c in order <==> c < |ports| && identity in ports[c].supports)
      && (forall i, j :: 0 <= i < j < |order| ==> order[i] != order[j])
  {
    var tried := Tried(ports, backend);
    SupportingIs(ports, identity, tried, |ports|);
    var first, rest := First(ports, identity, tried), Supporting(ports, identity, tried, |ports|);
    forall j | 0 <= j < |rest| ensures rest[j] !in first {
      assert rest[j] in rest;
    }
  }

  /** The preferred child, if there is one, comes first; all others follow in the order of the ports. */
  lemma AskOrderPrefers(ports: seq<Port>, identity: nat, backend: string, p: nat)
    requires IsPreferred(ports, identity, backend, p)
    ensures var order := AskOrder(ports, identity, backend); order != [] && order[0] == p && Rising(order[1..])
  {
    TriedIsPreferred(ports, identity, backend, p);
    SupportingIs(ports, identity, Tried(ports, backend), |ports|);
    assert AskOrder(ports, identity, backend)[1..] == Supporting(ports, identity, Tried(ports, backend), |ports|);
  }

  lemma AskOrderWithoutPreference(ports: seq<Port>, identity: nat, backend: string)
    requires forall p :: !IsPreferred(ports, identity, backend, p)
    ensures Rising(AskOrder(ports, identity, backend))
  {
    var first := First(ports, identity, Tried(ports, backend));
    SupportingIs(ports, identity, Tried(ports, backend), |ports|);
    if first != [] {
      TriedIsPreferred(ports, identity, backend, first[0]);
    }
    assert [] + Supporting(ports, identity, Tried(ports, backend), |ports|) == Supporting(ports, identity, Tried(ports, backend), |ports|);
  }

  /** The events of asking children in turn, the last one answering `ok` and the others no. */
  function Asks(serial: nat, identity: nat, children: seq<nat>, ok: bool): (events: seq<Event>)
    ensures |events| == |children|
  {
    seq(|children|, i requires 0 <= i < |children| => Plug(serial, identity, children[i], ok && i == |children| - 1))
  }

  lemma AsksAfter(serial: nat, identity: nat, first: seq<nat>, rest: seq<nat>, ok: bool)
    requires rest != [] || !ok
    ensures Asks(serial, identity, first, false) + Asks(serial, identity, rest, ok) == Asks(serial, identity, first + rest, ok)
  {
  }

  /** The first n of an order were asked in turn: all of them in vain, or the last one accepted. */
  ghost predicate InTurn(order: seq<nat>, serial: nat, identity: nat, before: seq<Event>, after: seq<Event>, ok: bool, n: nat) {
    && n <= |order| && after == before + Asks(serial, identity, order[..n], ok)
    && if ok then n > 0 else n == |order|
  }

  /** Asked one more in vain, or with success. */
  lemma InTurnNext(order: seq<nat>, serial: nat, identity: nat, before: seq<Event>, asked: seq<nat>, c: nat, after: seq<Event>,
                   ok: bool)
    requires asked + [c] <= order && after == before + Asks(serial, identity, asked, false) + Asks(serial, identity, [c], ok)
    ensures after == before + Asks(serial, identity, asked + [c], ok)
    ensures ok ==> InTurn(order, serial, identity, before, after, true, |asked| + 1) && order[|asked|] == c
  {
    AsksAfter(serial, identity, asked, [c], ok);
    assert order[..|asked| + 1] == asked + [c];
  }

  /** The first of an order asked in vain, then the others in turn. */
  lemma InTurnAfter(first: seq<nat>, others: seq<nat>, serial: nat, identity: nat, before: seq<Event>, after: seq<Event>, ok: bool,
                    n: nat)
    requires InTurn(others, serial, identity, before + Asks(serial, identity, first, false), after, ok, n)
    ensures InTurn(first + others, serial, identity, before, after, ok, |first| + n)
    ensures ok ==> (first + others)[|first| + n - 1] == others[n - 1]
  {
    AsksAfter(serial, identity, first, others[..n], ok);
    assert (first + others)[..|first| + n] == first + others[..n];
  }

  lemma {:induction false} SupportingPrefix(ports: seq<Port>, identity: nat, tried: Option<nat>, m: nat, n: nat)
    requires m <= n <= |ports|
    ensures Supporting(ports, identity, tried, m) <= Supporting(ports, identity, tried, n)
    decreases n
  {
    if m < n {
      SupportingPrefix(ports, identity, tried, m, n - 1);
    }
  }

  /** `held[c]` is what child c holds; it is not the mux's to read. */
  class Mux {
    const ports: seq<Port>
    const owners: array<Option<nat>>
    var open: seq<bool>
    ghost var held: seq<set<nat>>
    ghost var log: seq<Event>
    ghost var unplugs: seq<Unplug>

    ghost predicate Valid()
      reads this, owners
    {
      && owners.Length == SerialPool.COUNT + 1
      && |open| == |held| == |ports|
      && (forall c :: 0 <= c < |ports| && !open[c] ==> held[c] == {})
      && (forall c, s :: 0 <= c < |ports| && s in held[c] ==> SerialPool.Known(s) && owners[s] == Some(c))
      && (forall s :: 0 <= s < owners.Length && owners[s].Some? ==> owners[s].value < |ports|)
    }

    /** The serials some child holds. */
    ghost function Held(): set<nat>
      requires Valid()
      reads this, owners
    {
      set s: nat | s < owners.Length && owners[s].Some? && s in held[owners[s].value]
    }

    ghost predicate BusUp()
      reads this`open
    {
      exists c :: 0 <= c < |open| && open[c]
    }

    /** At most one child holds a serial: the one its calls are routed to. */
    lemma OneHolder(c: nat, d: nat, s: nat)
      requires Valid() && c < |ports| && d < |ports| && s in held[c] && s in held[d]
      ensures c == d && s in Held()
    {
      assert SerialPool.Known(s);
      assert owners[s] == Some(c) && owners[s] == Some(d);
    }

    constructor (children: seq<Port>)
      ensures Valid() && ports == children && fresh(owners)
      ensures Held() == {}
    {
      ports := children;
      owners := new Option<nat>[SerialPool.COUNT + 1](_ => None);
      open := seq(|children|, _ => false);
      held := seq(|children|, _ => {});
      log, unplugs := [], [];
    }

    // ---------- a child's answers ----------

    method ChildPlug(c: nat, serial: nat, identity: nat) returns (ok: bool)
      requires |open| == |held| == |ports| && c < |ports|
      modifies this`held, this`log
      ensures log == old(log) + [Plug(serial, identity, c, ok)]
      ensures ok ==> open[c] && held == old(held)[c := old(held)[c] + {serial}]
      ensures !ok ==> held == old(held)
    {
      ok := *;
      ok := ok && open[c];
      log := log + [Plug(serial, identity, c, ok)];
      if ok {
        held := held[c := held[c] + {serial}];
      }
    }

    method ChildUnplug(c: nat, serial: nat) returns (ok: bool)
      requires |held| == |ports| && c < |ports|
      modifies this`held, this`unplugs
      ensures unplugs == old(unplugs) + [Unplug(serial, c, ok)]
      ensures held == old(held) || held == old(held)[c := old(held)[c] - {serial}]
      ensures ok ==> held == old(held)[c := old(held)[c] - {serial}]
    {
      ok := *;
      unplugs := unplugs + [Unplug(serial, c, ok)];
      ghost var gone: bool := *;
      if ok || gone {
        held := held[c := held[c] - {serial}];
      }
    }

    method ChildOpen(c: nat) returns (ok: bool)
      requires |open| == |ports| && c < |ports|
      modifies this`open, this`log
      ensures log == old(log) + [Open(c, ok)] && open == old(open)[c := ok]
      ensures old(open)[c] ==> ok
    {
      ok := *;
      ok := ok || open[c];
      open := open[c := ok];
      log := log + [Open(c, ok)];
    }

    // ---------- the port's own operations ----------

    /** Every child is asked to open its bus; a bus that is up stays up. */
    method EnsureBusOpen() returns (any: bool)
      requires Valid()
      modifies this`open, this`log
      ensures Valid() && Held() == old(Held())
      ensures any <==> BusUp()
      ensures old(BusUp()) ==> BusUp()
      ensures log == old(log) + seq(|ports|, c requires 0 <= c < |open| reads this => Open(c, open[c]))
    {
      any := false;
      ghost var w: nat := 0;
      ghost var answers: seq<bool> := [];
      for c := 0 to |ports|
        invariant Valid() && held == old(held)
        invariant forall d :: 0 <= d < |ports| && old(open)[d] ==> open[d]
        invariant forall d :: 0 <= d < c && open[d] ==> any
        invariant any ==> w < |ports| && open[w]
        invariant answers == open[..c]
        invariant log == old(log) + seq(c, d requires 0 <= d < |answers| => Open(d, answers[d]))
      {
        var opens := ChildOpen(c);
        answers := answers + [opens];
        w := if opens then c else w;
        any := opens || any;
      }
      assert answers == open;
    }

    method CloseBus()
      requires Valid()
      modifies this`open, this`held
      ensures Valid() && Held() == {} && !BusUp()
    {
      for c := 0 to |ports|
        invariant Valid()
        invariant forall d :: 0 <= d < c ==> !open[d]
      {
        open := open[c := false];
        held := held[c := {}];
      }
    }

    method IsBusOpen() returns (any: bool)
      requires Valid()
      ensures any <==> BusUp()
      ensures !any ==> Held() == {}
    {
      for c := 0 to |ports|
        invariant forall d :: 0 <= d < c ==> !open[d]
      {
        if open[c] {
          return true;
        }
      }
      return false;
    }

    method SupportsIdentity(identity: nat) returns (any: bool)
      ensures any <==> exists c :: 0 <= c < |ports| && identity in ports[c].supports
    {
      for c := 0 to |ports|
        invariant forall d :: 0 <= d < c ==> identity !in ports[d].supports
      {
        if identity in ports[c].supports {
          return true;
        }
      }
      return false;
    }

    method FirstWithId(backend: string) returns (first: Option<nat>)
      ensures first == Preferred(ports, backend, 0)
    {
      for c := 0 to |ports|
        invariant Preferred(ports, backend, 0) == Preferred(ports, backend, c)
      {
        if ports[c].id == backend {
          return Some(c);
        }
      }
      return None;
    }

    /** One child's turn; on success it is recorded as the owner. */
    method AskChild(c: nat, serial: nat, identity: nat) returns (ok: bool)
      requires Valid() && c < |ports| && SerialPool.Known(serial) && serial !in Held()
      modifies this`held, this`log, owners
      ensures Valid() && Held() == old(Held()) + if ok then {serial} else {}
      ensures log == old(log) + Asks(serial, identity, [c], ok)
      ensures ok ==> owners[serial] == Some(c)
    {
      ok := ChildPlug(c, serial, identity);
      if ok {
        owners[serial] := Some(c);
      }
    }

    method PlugPreferred(serial: nat, identity: nat, tried: Option<nat>) returns (ok: bool)
      requires Valid() && SerialPool.Known(serial) && serial !in Held() && (tried.Some? ==> tried.value < |ports|)
      modifies this`held, this`log, owners
      ensures Valid() && Held() == old(Held()) + if ok then {serial} else {}
      ensures log == old(log) + Asks(serial, identity, First(ports, identity, tried), ok)
      ensures ok ==> First(ports, identity, tried) != [] && owners[serial] == Some(First(ports, identity, tried)[0])
    {
      ok := false;
      if tried.Some? && identity in ports[tried.value].supports {
        ok := AskChild(tried.value, serial, identity);
      } else {
        assert log == log + [];
      }
    }

    method PlugOthers(serial: nat, identity: nat, tried: Option<nat>) returns (ok: bool, ghost n: nat)
      requires Valid() && SerialPool.Known(serial) && serial !in Held()
      modifies this`held, this`log, owners
      ensures Valid() && Held() == old(Held()) + if ok then {serial} else {}
      ensures InTurn(Supporting(ports, identity, tried, |ports|), serial, identity, old(log), log, ok, n)
      ensures ok ==> owners[serial] == Some(Supporting(ports, identity, tried, |ports|)[n - 1])
    {
      ghost var order := Supporting(ports, identity, tried, |ports|);
      assert log == log + Asks(serial, identity, [], false);
      for c := 0 to |ports|
        invariant Valid() && Held() == old(Held())
        invariant log == old(log) + Asks(serial, identity, Supporting(ports, identity, tried, c), false)
      {
        ghost var before := Supporting(ports, identity, tried, c);
        SupportingPrefix(ports, identity, tried, c + 1, |ports|);
        if Some(c) == tried || identity !in ports[c].supports {
          continue;
        }
        ok := AskChild(c, serial, identity);
        InTurnNext(order, serial, identity, old(log), before, c, log, ok);
        if ok {
          return true, |before| + 1;
        }
      }
      assert order[..|order|] == order;
      return false, |order|;
    }

    /**
     Asks the children in turn, the preferred one first, until one accepts; the caller sees to it
     that nobody holds the serial.
     */
    method PluginDevicePreferring(serial: nat, identity: nat, backend: string) returns (ok: bool, ghost n: nat)
      requires Valid() && serial !in Held()
      modifies this`held, this`log, owners
      ensures Valid() && Held() == old(Held()) + if ok then {serial} else {}
      ensures SerialPool.Known(serial) ==> InTurn(AskOrder(ports, identity, backend), serial, identity, old(log), log, ok, n)
      ensures SerialPool.Known(serial) && ok ==> owners[serial] == Some(AskOrder(ports, identity, backend)[n - 1])
      ensures !SerialPool.Known(serial) ==> !ok && log == old(log)
    {
      n := 0;
      if !(serial >= 1 && serial <= SerialPool.COUNT) {
        return false, n;
      }
      var tried: Option<nat> := None;
      if backend != "" {
        tried := FirstWithId(backend);
      }
      ghost var first, others := First(ports, identity, tried), Supporting(ports, identity, tried, |ports|);
      ok := PlugPreferred(serial, identity, tried);
      if ok {
        assert (first + others)[..1] == first;
        return true, 1;
      }
      ok, n := PlugOthers(serial, identity, tried);
      InTurnAfter(first, others, serial, identity, old(log), log, ok, n);
      n := |first| + n;
    }

    /** The owner is asked, if there is one, and its answer is the answer. */
    method UnplugDevice(serial: nat) returns (ok: bool)
      requires Valid()
      modifies this`held, this`unplugs, owners
      ensures Valid()
      ensures Held() == old(Held()) || Held() == old(Held()) - {serial}
      ensures ok ==> Held() == old(Held()) - {serial}
      ensures if SerialPool.Known(serial) && old(owners[serial]).Some?
              then unplugs == old(unplugs) + [Unplug(serial, old(owners[serial]).value, ok)]
              else ok && unplugs == old(unplugs)
    {
      if !(serial >= 1 && serial <= SerialPool.COUNT) || owners[serial].None? {
        return true;
      }
      ok := ChildUnplug(owners[serial].value, serial);
      if !ok {
        return false;
      }
      owners[serial] := None;
      return true;
    }
  }
}
