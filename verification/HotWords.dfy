/**
 The words published to lock-free readers and the heartbeat acknowledgement's wire form:
 what a reader unpacks is what the writer packed, for every value that fits its field.
 */
module HotWords {

  import opened Basics

  const CTRL_ACTIVE: bv32 := 0x8000_0000
  const CTRL_SERIAL_MASK: bv32 := 0xFF
  const SESSION_MOUSE: bv32 := 0x1_0000
  const CONTROLLERS := 16

  function Low16(w: bv32): bv16 { (w & 0xFFFF) as bv16 }
  function Low8(w: bv32): bv8 { (w & 0xFF) as bv8 }

  function CtrlWord(active: bool, serial: bv32): bv32 {
    if active then CTRL_ACTIVE | (serial & CTRL_SERIAL_MASK) else 0
  }

  predicate CtrlActive(w: bv32) { w & CTRL_ACTIVE != 0 }
  function CtrlSerial(w: bv32): bv32 { w & CTRL_SERIAL_MASK }

  function PadInfo(caps: bv16, kind: bv8, mode: bv8): bv32 {
    (caps as bv32) | ((kind as bv32) << 16) | ((mode as bv32) << 24)
  }

  function PadCaps(w: bv32): bv16 { Low16(w) }
  function PadKind(w: bv32): bv8 { Low8(w >> 16) }
  function PadMode(w: bv32): bv8 { Low8(w >> 24) }

  function SessionWord(epoch: bv16, mouse: bool): bv32 {
    (epoch as bv32) | (if mouse then SESSION_MOUSE else 0)
  }

  function SessionEpoch(w: bv32): bv16 { Low16(w) }
  predicate SessionMouse(w: bv32) { w & SESSION_MOUSE != 0 }

  /** `slot` is never negative where a pad has an owner; no owner is the word 0. */
  function PadOwner(slot: bv32, index: bv8): bv32 {
    ((slot + 1) << 8) | (index as bv32)
  }

  function OwnerSlot(w: bv32): bv32 { (w >> 8) - 1 }
  function OwnerIndex(w: bv32): bv8 { Low8(w) }

  function PackMotors(strong: bv16, weak: bv16): bv32 {
    (strong as bv32) | ((weak as bv32) << 16)
  }

  function MotorStrong(w: bv32): bv16 { Low16(w) }
  function MotorWeak(w: bv32): bv16 { Low16(w >> 16) }

  function PackClientAddr(ip: bv32, port: bv16): bv64 {
    ((ip as bv64) << 16) | (port as bv64)
  }

  function ClientIp(w: bv64): bv32 { ((w >> 16) & 0xFFFF_FFFF) as bv32 }
  function ClientPort(w: bv64): bv16 { (w & 0xFFFF) as bv16 }

  lemma CtrlWordRoundTrip(active: bool, serial: bv32)
    requires serial <= 0xFF
    ensures CtrlActive(CtrlWord(active, serial)) == active
    ensures active ==> CtrlSerial(CtrlWord(active, serial)) == serial
  {
  }

  lemma PadInfoRoundTrip(caps: bv16, kind: bv8, mode: bv8)
    ensures var w := PadInfo(caps, kind, mode); PadCaps(w) == caps && PadKind(w) == kind && PadMode(w) == mode
  {
  }

  lemma SessionWordRoundTrip(epoch: bv16, mouse: bool)
    ensures var w := SessionWord(epoch, mouse); SessionEpoch(w) == epoch && SessionMouse(w) == mouse
  {
  }

  /** An owner word names its pad, and is never mistaken for no owner. */
  lemma PadOwnerRoundTrip(slot: bv32, index: bv8)
    requires slot < 0xFF_FFFF
    ensures var w := PadOwner(slot, index); w != 0 && OwnerSlot(w) == slot && OwnerIndex(w) == index
  {
  }

  lemma MotorsRoundTrip(strong: bv16, weak: bv16)
    ensures var w := PackMotors(strong, weak); MotorStrong(w) == strong && MotorWeak(w) == weak
  {
  }

  lemma ClientAddrRoundTrip(ip: bv32, port: bv16)
    ensures var w := PackClientAddr(ip, port); ClientIp(w) == ip && ClientPort(w) == port
  {
  }

  // ---------- the active bitmap ----------

  predicate Bit(b: bv16, i: nat)
    requires i < CONTROLLERS
  {
    (b >> (i as bv16)) & 1 == 1
  }

  lemma SetBitWords(b: bv16, i: bv16, j: bv16)
    requires i < 16 && j < 16
    ensures ((b | (1 << i)) >> j) & 1 == 1 <==> j == i || (b >> j) & 1 == 1
  {
  }

  lemma IndexWord(i: nat)
    requires i < CONTROLLERS
    ensures (i as bv16) as nat == i && (i as bv16) < 16
  {
  }

  lemma SetBit(b: bv16, i: nat, j: nat)
    requires i < CONTROLLERS && j < CONTROLLERS
    ensures Bit(b | (1 << (i as bv16)), j) <==> j == i || Bit(b, j)
  {
    IndexWord(i);
    IndexWord(j);
    SetBitWords(b, i as bv16, j as bv16);
  }

  /** The heartbeat's bitmap: a bit per controller word, set exactly for the active ones. */
  method ActiveBitmap(words: seq<bv32>) returns (bitmap: bv16)
    requires |words| == CONTROLLERS
    ensures forall j :: 0 <= j < CONTROLLERS ==> (Bit(bitmap, j) <==> CtrlActive(words[j]))
  {
    bitmap := 0;
    for i := 0 to CONTROLLERS
      invariant forall j :: 0 <= j < CONTROLLERS ==> (Bit(bitmap, j) <==> j < i && CtrlActive(words[j]))
    {
      if CtrlActive(words[i]) {
        var next := bitmap | (1 << (i as bv16));
        forall j | 0 <= j < CONTROLLERS
          ensures Bit(next, j) <==> j == i || Bit(bitmap, j)
        {
          SetBit(bitmap, i, j);
        }
        bitmap := next;
      }
    }
  }

  // ---------- the heartbeat acknowledgement ----------

  const ACK_PRESENT: bv64 := 0x8000_0000_0000_0000
  const MSG_HEARTBEAT_ACK: bv16 := 0x0003
  const ACK_PAYLOAD_BYTES: bv8 := 6

  datatype Ack = Ack(backendAvailable: bool, totalActive: bv8, epoch: bv16, bitmap: bv16)

  function PackAck(a: Ack): bv64 {
    ACK_PRESENT | (if a.backendAvailable then 1 else 0) |
    ((a.totalActive as bv64) << 8) | ((a.epoch as bv64) << 16) | ((a.bitmap as bv64) << 32)
  }

  function Byte(w: bv64): bv8 { (w & 0xFF) as bv8 }

  /** The inner message a gate holder frames from the word it took. */
  function FrameAck(ack: bv64): seq<bv8> {
    [((MSG_HEARTBEAT_ACK >> 8) & 0xFF) as bv8, (MSG_HEARTBEAT_ACK & 0xFF) as bv8, 0, ACK_PAYLOAD_BYTES,
     Byte(ack & 1), Byte(ack >> 8), Byte(ack >> 24), Byte(ack >> 16), Byte(ack >> 40), Byte(ack >> 32)]
  }

  function BigEndian(hi: bv8, lo: bv8): bv16 {
    ((hi as bv16) << 8) | (lo as bv16)
  }

  /** The wire form: type and length, then availability, count, epoch and bitmap, high byte first. */
  function DecodeAck(bytes: seq<bv8>): Option<Ack> {
    if |bytes| == 10 && BigEndian(bytes[0], bytes[1]) == MSG_HEARTBEAT_ACK && BigEndian(bytes[2], bytes[3]) == 6
    then Some(Ack(bytes[4] != 0, bytes[5], BigEndian(bytes[6], bytes[7]), BigEndian(bytes[8], bytes[9])))
    else None
  }

  lemma FlagBytes(a: Ack)
    ensures PackAck(a) != 0
    ensures (Byte(PackAck(a) & 1) != 0) == a.backendAvailable && Byte(PackAck(a) >> 8) == a.totalActive
  {
  }

  lemma EpochBytes(a: Ack)
    ensures BigEndian(Byte(PackAck(a) >> 24), Byte(PackAck(a) >> 16)) == a.epoch
  {
  }

  lemma BitmapBytes(a: Ack)
    ensures BigEndian(Byte(PackAck(a) >> 40), Byte(PackAck(a) >> 32)) == a.bitmap
  {
  }

  /** The bytes framed decode to the values packed, and a packed ack is never the empty mailbox. */
  lemma AckRoundTrip(a: Ack)
    ensures PackAck(a) != 0
    ensures DecodeAck(FrameAck(PackAck(a))) == Some(a)
  {
    FlagBytes(a);
    EpochBytes(a);
    BitmapBytes(a);
  }

  // ---------- device names ----------

  predicate Continuation(b: bv8) {
    b & 0xC0 == 0x80
  }

  /** A cut that splits no UTF-8 sequence: at the start, at the end, or before a leading byte. */
  predicate Boundary(text: seq<bv8>, cut: nat) {
    cut <= |text| && (cut == 0 || cut == |text| || !Continuation(text[cut]))
  }

  /** The longest prefix within the limit that ends on a boundary. */
  method Utf8Prefix(text: seq<bv8>, limit: nat) returns (cut: nat)
    ensures cut <= limit && Boundary(text, cut)
    ensures forall c :: cut < c <= limit ==> !Boundary(text, c)
  {
    if |text| <= limit {
      return |text|;
    }
    cut := limit;
    while cut > 0 && Continuation(text[cut])
      invariant cut <= limit
      invariant forall c :: cut < c <= limit ==> !Boundary(text, c)
    {
      cut := cut - 1;
    }
  }
}
