/**
 Re-windowing of a pad's outbound PCM.  A backend hands over batches of any size;
 the lane cuts them into 20 ms windows and keeps the partial tail.  Samples are
 16-bit values, interleaved stereo.
 */
module AudioLane {

  const FRAME_SAMPLES := 960
  const CHANNELS := 2
  /** One window, in interleaved samples. */
  const WINDOW := FRAME_SAMPLES * CHANNELS

  type Pcm = seq<int>

  // ---------- cutting a whole stream ----------

  /** The whole windows of a stream, in order. */
  function Cut(s: Pcm): seq<Pcm>
    decreases |s|
  {
    if |s| < WINDOW then [] else [s[..WINDOW]] + Cut(s[WINDOW..])
  }

  /** What is left after the last whole window. */
  function Tail(s: Pcm): (t: Pcm)
    ensures |t| < WINDOW
    decreases |s|
  {
    if |s| < WINDOW then s else Tail(s[WINDOW..])
  }

  function Concat(parts: seq<Pcm>): Pcm {
    if parts == [] then [] else parts[0] + Concat(parts[1..])
  }

  /** No sample is lost, repeated or moved. */
  lemma {:induction false} CutAndTailRebuild(s: Pcm)
    ensures Concat(Cut(s)) + Tail(s) == s
    ensures forall i :: 0 <= i < |Cut(s)| ==> |Cut(s)[i]| == WINDOW
    decreases |s|
  {
    if |s| >= WINDOW {
      var rest := s[WINDOW..];
      CutAndTailRebuild(rest);
      assert Cut(s)[1..] == Cut(rest);
      assert s == s[..WINDOW] + rest;
    }
  }

  lemma {:induction false} CutAppend(a: Pcm, b: Pcm)
    ensures Cut(a + b) == Cut(a) + Cut(Tail(a) + b)
    ensures Tail(a + b) == Tail(Tail(a) + b)
    decreases |a|
  {
    if |a| >= WINDOW {
      CutAppend(a[WINDOW..], b);
      assert (a + b)[..WINDOW] == a[..WINDOW];
      assert (a + b)[WINDOW..] == a[WINDOW..] + b;
      assert Cut(a + b) == [a[..WINDOW]] + (Cut(a[WINDOW..]) + Cut(Tail(a) + b));
    }
  }

  /** The windows produced by feeding batches one at a time, and the last tail. */
  function Feed(pending: Pcm, batches: seq<Pcm>): (seq<Pcm>, Pcm)
    decreases |batches|
  {
    if batches == [] then ([], pending)
    else
      var s := pending + batches[0];
      var (windows, tail) := Feed(Tail(s), batches[1..]);
      (Cut(s) + windows, tail)
  }

  /** Any split of a stream into batches gives the windows of the whole stream. */
  lemma {:induction false} BatchingDoesNotMatter(pending: Pcm, batches: seq<Pcm>)
    requires |pending| < WINDOW
    ensures Feed(pending, batches).0 == Cut(pending + Concat(batches))
    ensures Feed(pending, batches).1 == Tail(pending + Concat(batches))
    decreases |batches|
  {
    if batches == [] {
      assert pending + [] == pending;
    } else {
      var s := pending + batches[0];
      var rest := Concat(batches[1..]);
      BatchingDoesNotMatter(Tail(s), batches[1..]);
      CutAppend(s, rest);
      assert pending + (batches[0] + rest) == s + rest;
    }
  }

  lemma SameStreamSameWindows(pending: Pcm, xs: seq<Pcm>, ys: seq<Pcm>)
    requires |pending| < WINDOW && Concat(xs) == Concat(ys)
    ensures Feed(pending, xs) == Feed(pending, ys)
  {
    BatchingDoesNotMatter(pending, xs);
    BatchingDoesNotMatter(pending, ys);
  }

  // ---------- the sequence number ----------

  predicate Silent(window: Pcm) {
    forall i :: 0 <= i < |window| ==> window[i] == 0
  }

  function NonSilent(windows: seq<Pcm>): nat {
    if windows == [] then 0
    else NonSilent(windows[..|windows| - 1]) + (if Silent(windows[|windows| - 1]) then 0 else 1)
  }

  method IsDigitalSilence(window: Pcm) returns (silent: bool)
    ensures silent <==> Silent(window)
  {
    for i := 0 to |window|
      invariant forall j :: 0 <= j < i ==> window[j] == 0
    {
      if window[i] != 0 {
        return false;
      }
    }
    return true;
  }

  // ---------- the lane ----------

  /** One packet on the wire: the sequence number and the window it encodes. */
  datatype Packet = Packet(number: nat, window: Pcm)

  /** Sequence numbers are sixteen bits. */
  function Wrapped(n: nat): nat {
    n % 65536
  }

  /** The packet of window `k`, numbered by the non-silent windows before it. */
  function PacketOf(windows: seq<Pcm>, k: nat): Packet
    requires k < |windows|
  {
    Packet(Wrapped(NonSilent(windows[..k])), windows[k])
  }

  /** The packets are those of the windows at `places`, which are not silent and come in order, none twice. */
  ghost predicate InOrder(sent: seq<Packet>, places: seq<nat>, windows: seq<Pcm>) {
    && |places| == |sent|
    && (forall i :: 0 <= i < |sent| ==>
          places[i] < |windows| && sent[i] == PacketOf(windows, places[i]) && !Silent(windows[places[i]]))
    && (forall i, j :: 0 <= i < j < |sent| ==> places[i] < places[j])
  }

  lemma {:induction false} PacketStays(windows: seq<Pcm>, w: Pcm, k: nat)
    requires k < |windows|
    ensures PacketOf(windows + [w], k) == PacketOf(windows, k)
  {
    assert (windows + [w])[..k] == windows[..k];
  }

  lemma {:induction false} InOrderLater(sent: seq<Packet>, places: seq<nat>, windows: seq<Pcm>, w: Pcm)
    requires InOrder(sent, places, windows)
    ensures InOrder(sent, places, windows + [w])
  {
    forall i | 0 <= i < |sent| ensures PacketOf(windows + [w], places[i]) == PacketOf(windows, places[i]) {
      PacketStays(windows, w, places[i]);
    }
  }

  lemma {:induction false} InOrderSent(sent: seq<Packet>, places: seq<nat>, windows: seq<Pcm>, k: nat)
    requires InOrder(sent, places, windows) && k < |windows| && !Silent(windows[k])
    requires forall i :: 0 <= i < |places| ==> places[i] < k
    ensures InOrder(sent + [PacketOf(windows, k)], places + [k], windows)
  {
  }

  lemma NonSilentNext(windows: seq<Pcm>, w: Pcm)
    ensures NonSilent(windows + [w]) == NonSilent(windows) + (if Silent(w) then 0 else 1)
  {
    assert (windows + [w])[..|windows|] == windows;
  }

  lemma {:induction false} NonSilentSplit(a: seq<Pcm>, b: seq<Pcm>)
    ensures NonSilent(a + b) == NonSilent(a) + NonSilent(b)
  {
    if b == [] {
      assert a + b == a;
    } else {
      var n := |b| - 1;
      NonSilentSplit(a, b[..n]);
      NonSilentNext(a + b[..n], b[n]);
      assert a + b == a + b[..n] + [b[n]];
    }
  }

  lemma WrappedSum(m: nat, n: nat)
    ensures Wrapped(Wrapped(m) + n) == Wrapped(m + n)
  {
  }

  /**
   Of any two packets sent, the earlier carries the earlier window, and the numbers are
   as far apart, modulo 65536, as there are non-silent windows between them.
   */
  lemma GapCountsWindows(sent: seq<Packet>, places: seq<nat>, windows: seq<Pcm>, i: nat, j: nat)
    requires InOrder(sent, places, windows) && i < j < |sent|
    ensures places[i] < places[j] < |windows|
    ensures sent[j].number == Wrapped(sent[i].number + NonSilent(windows[places[i]..places[j]]))
  {
    var before, between := windows[..places[i]], windows[places[i]..places[j]];
    NonSilentSplit(before, between);
    assert windows[..places[j]] == before + between;
    WrappedSum(NonSilent(before), NonSilent(between));
  }

  lemma Shift<T>(a: seq<T>, x: T, b: seq<T>)
    ensures a + ([x] + b) == a + [x] + b
  {
  }

  class Lane {
    var gen: nat
    var encoder: bool
    var pending: Pcm
    var seqNo: nat
    /** Windows handed to the encode path since the lane was last reset. */
    ghost var encoded: seq<Pcm>
    /** Windows handed to the rumble reduction since the lane was last reset. */
    ghost var reduced: seq<Pcm>
    ghost var sent: seq<Packet>
    /** Which of the windows handed to the encode path each packet carries. */
    ghost var places: seq<nat>

    ghost predicate Valid()
      reads this
    {
      && |pending| < WINDOW
      && |pending| % CHANNELS == 0
      && SequenceValid()
    }

    /** The next sequence number counts the non-silent windows so far, as each one sent did. */
    ghost predicate SequenceValid()
      reads this
    {
      seqNo == Wrapped(NonSilent(encoded)) && InOrder(sent, places, encoded)
    }

    constructor ()
      ensures Valid() && gen == 0 && pending == [] && encoded == [] && reduced == []
    {
      gen, encoder, pending, seqNo, encoded, reduced, sent, places := 0, false, [], 0, [], [], [], [];
    }

    /** A new plug generation starts a new stream; the same one goes on. */
    method Select(g: nat)
      requires Valid()
      modifies this
      ensures Valid() && gen == g
      ensures g == old(gen) ==> unchanged(this)
      ensures g != old(gen) ==>
                pending == [] && seqNo == 0 && encoded == [] && reduced == [] && sent == [] && !encoder
    {
      if gen != g {
        gen, encoder, pending, seqNo, encoded, reduced, sent, places := g, false, [], 0, [], [], [], [];
      }
    }

    /** Takes the next sequence number. */
    method TakeNumber(ghost n: nat) returns (mine: nat)
      requires seqNo == Wrapped(n)
      modifies this`seqNo
      ensures mine == Wrapped(n) && seqNo == Wrapped(n + 1)
    {
      mine := seqNo;
      seqNo := (seqNo + 1) % 65536;
      WrappedSum(n, 1);
    }

    /**
     Encodes and sends one window.  Silence is suppressed without taking a
     sequence number; a failed encode takes one; a send may find the pad unbound.
     */
    method SendWindow(window: Pcm)
      requires SequenceValid()
      modifies this`seqNo, this`encoded, this`sent, this`places
      ensures SequenceValid()
      ensures encoded == old(encoded) + [window]
      ensures sent == old(sent) || sent == old(sent) + [Packet(old(seqNo), window)]
      ensures Silent(window) ==> sent == old(sent) && seqNo == old(seqNo)
    {
      var silent := IsDigitalSilence(window);
      InOrderLater(sent, places, encoded, window);
      NonSilentNext(encoded, window);
      ghost var k, n := |encoded|, NonSilent(encoded);
      encoded := encoded + [window];
      assert encoded[..k] == old(encoded);
      if silent {
        return;
      }
      var produced: bool := *;
      var mine := TakeNumber(n);
      if !produced {
        return;
      }
      var bound: bool := *;
      if bound {
        InOrderSent(sent, places, encoded, k);
        sent, places := sent + [Packet(mine, window)], places + [k];
      }
    }

    /** Tops the pending samples up to a window from the front of the batch. */
    method FillPending(batch: Pcm) returns (consumed: nat)
      requires Valid() && |batch| % CHANNELS == 0 && pending != []
      modifies this`pending
      ensures consumed * CHANNELS <= |batch| && SequenceValid()
      ensures if |pending| < WINDOW then Valid() && Cut(old(pending) + batch) == [] && pending == Tail(old(pending) + batch)
              else Cut(old(pending) + batch) == [pending] + Cut(batch[consumed * CHANNELS..])
                   && Tail(old(pending) + batch) == Tail(batch[consumed * CHANNELS..])
    {
      var need, offered := WINDOW - |pending|, |batch|;
      var take := if need < offered then need else offered;
      TopUp(pending, batch, take);
      pending := pending + batch[..take];
      consumed := take / CHANNELS;
    }

    /** The encode path: whole windows go out, the tail waits. */
    method EncodeAndSend(batch: Pcm, haveCodec: bool)
      requires Valid() && |batch| % CHANNELS == 0
      modifies this
      ensures Valid() && gen == old(gen) && reduced == old(reduced)
      ensures encoder == (old(encoder) || haveCodec)
      ensures encoder ==> encoded == old(encoded) + Cut(old(pending) + batch)
      ensures encoder ==> pending == Tail(old(pending) + batch)
      ensures !encoder ==> pending == old(pending) && encoded == old(encoded)
    {
      encoder := encoder || haveCodec;
      if !encoder {
        return;
      }
      if pending == [] {
        assert batch[0..] == batch && [] + batch == batch;
        SendWhole(batch, 0);
        return;
      }
      var consumed := FillPending(batch);
      if |pending| < WINDOW {
        assert encoded + [] == encoded;
        return;
      }
      Shift(encoded, pending, Cut(batch[consumed * CHANNELS..]));
      SendWindow(pending);
      pending := [];
      SendWhole(batch, consumed);
    }

    /** The loop over whole windows, from frame `from` of the batch. */
    method SendWhole(batch: Pcm, from: nat)
      requires Valid() && pending == [] && |batch| % CHANNELS == 0 && from * CHANNELS <= |batch|
      modifies this`pending, this`seqNo, this`encoded, this`sent, this`places
      ensures Valid()
      ensures encoded == old(encoded) + Cut(batch[from * CHANNELS..])
      ensures pending == Tail(batch[from * CHANNELS..])
    {
      var frames, consumed := |batch| / CHANNELS, from;
      ghost var whole := encoded + Cut(batch[from * CHANNELS..]);
      while frames - consumed >= FRAME_SAMPLES
        invariant from <= consumed <= frames && pending == [] && Valid()
        invariant encoded + Cut(batch[consumed * CHANNELS..]) == whole
        invariant Tail(batch[consumed * CHANNELS..]) == Tail(batch[from * CHANNELS..])
      {
        var at := consumed * CHANNELS;
        CutStep(batch, at);
        Shift(encoded, batch[at..at + WINDOW], Cut(batch[at + WINDOW..]));
        SendWindow(batch[at..at + WINDOW]);
        consumed := consumed + FRAME_SAMPLES;
      }
      if consumed < frames {
        pending := batch[consumed * CHANNELS..];
      }
    }

    /** The reduction path cuts the very same windows, each reduced to a motor level. */
    method Reduce(batch: Pcm)
      requires Valid() && |batch| % CHANNELS == 0
      modifies this
      ensures Valid() && gen == old(gen) && encoded == old(encoded) && seqNo == old(seqNo)
      ensures reduced == old(reduced) + Cut(old(pending) + batch)
      ensures pending == Tail(old(pending) + batch)
    {
      if pending == [] {
        assert batch[0..] == batch && [] + batch == batch;
        ReduceWhole(batch, 0);
        return;
      }
      var consumed := FillPending(batch);
      if |pending| < WINDOW {
        assert reduced + [] == reduced;
        return;
      }
      Shift(reduced, pending, Cut(batch[consumed * CHANNELS..]));
      reduced := reduced + [pending];
      pending := [];
      ReduceWhole(batch, consumed);
    }

    method ReduceWhole(batch: Pcm, from: nat)
      requires Valid() && pending == [] && |batch| % CHANNELS == 0 && from * CHANNELS <= |batch|
      modifies this`pending, this`reduced
      ensures Valid()
      ensures reduced == old(reduced) + Cut(batch[from * CHANNELS..])
      ensures pending == Tail(batch[from * CHANNELS..])
    {
      var frames, consumed := |batch| / CHANNELS, from;
      ghost var whole := reduced + Cut(batch[from * CHANNELS..]);
      while frames - consumed >= FRAME_SAMPLES
        invariant from <= consumed <= frames && pending == [] && Valid()
        invariant reduced + Cut(batch[consumed * CHANNELS..]) == whole
        invariant Tail(batch[consumed * CHANNELS..]) == Tail(batch[from * CHANNELS..])
      {
        var at := consumed * CHANNELS;
        CutStep(batch, at);
        Shift(reduced, batch[at..at + WINDOW], Cut(batch[at + WINDOW..]));
        reduced := reduced + [batch[at..at + WINDOW]];
        consumed := consumed + FRAME_SAMPLES;
      }
      if consumed < frames {
        pending := batch[consumed * CHANNELS..];
      }
    }
  }

  /** Topping up the tail either fills exactly the first window or stays short of it. */
  lemma TopUp(pending: Pcm, batch: Pcm, take: nat)
    requires 0 < |pending| < WINDOW
    requires take == if WINDOW - |pending| < |batch| then WINDOW - |pending| else |batch|
    ensures var s := pending + batch;
            var first := pending + batch[..take];
            if |first| < WINDOW then first == s && Cut(s) == [] && Tail(s) == s
            else |first| == WINDOW && Cut(s) == [first] + Cut(batch[take..]) && Tail(s) == Tail(batch[take..])
  {
    var s := pending + batch;
    var first := pending + batch[..take];
    if |first| < WINDOW {
      assert batch[..take] == batch;
    } else {
      assert s[..WINDOW] == first;
      assert s[WINDOW..] == batch[take..];
    }
  }

  lemma CutStep(batch: Pcm, at: nat)
    requires at + WINDOW <= |batch|
    ensures Cut(batch[at..]) == [batch[at..at + WINDOW]] + Cut(batch[at + WINDOW..])
    ensures Tail(batch[at..]) == Tail(batch[at + WINDOW..])
  {
    assert batch[at..][..WINDOW] == batch[at..at + WINDOW];
    assert batch[at..][WINDOW..] == batch[at + WINDOW..];
  }
}
