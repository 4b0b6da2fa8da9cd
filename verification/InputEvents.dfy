/** The kernel's input event records and their bytes (`src/scroll/event.rs`,
    `src/scroll/constants.rs`). Records are packed little-endian, 24 bytes each. */
module InputEvents {

  type byte = x: int | 0 <= x < 256

  const EVENT_SIZE: nat := 24

  const EV_SYN: nat := 0x00
  const EV_REL: nat := 0x02
  const REL_HWHEEL: nat := 0x06
  const REL_WHEEL: nat := 0x08
  const REL_WHEEL_HI_RES: nat := 0x0b
  const REL_HWHEEL_HI_RES: nat := 0x0c
  const SYN_REPORT: nat := 0x00

  datatype InputEvent = InputEvent(tvSec: int, tvUsec: int, kind: nat, code: nat, value: int) {
    ghost predicate Valid() {
      && -0x8000_0000_0000_0000 <= tvSec < 0x8000_0000_0000_0000
      && -0x8000_0000_0000_0000 <= tvUsec < 0x8000_0000_0000_0000
      && kind < 0x1_0000 && code < 0x1_0000
      && -0x8000_0000 <= value < 0x8000_0000
    }
  }

  function Pow256(n: nat): (p: nat)
    ensures p > 0
  {
    if n == 0 then 1 else 256 * Pow256(n - 1)
  }

  function ToBytes(v: nat, n: nat): (b: seq<byte>)
    ensures |b| == n
  {
    if n == 0 then [] else [v % 256] + ToBytes(v / 256, n - 1)
  }

  function FromBytes(b: seq<byte>): nat {
    if b == [] then 0 else b[0] + 256 * FromBytes(b[1..])
  }

  lemma {:induction false} FromToBytes(v: nat, n: nat)
    requires v < Pow256(n)
    ensures FromBytes(ToBytes(v, n)) == v
  {
    if n > 0 {
      FromToBytes(v / 256, n - 1);
      assert ToBytes(v, n)[1..] == ToBytes(v / 256, n - 1);
    }
  }

  lemma {:induction false} ToFromBytes(b: seq<byte>)
    ensures FromBytes(b) < Pow256(|b|)
    ensures ToBytes(FromBytes(b), |b|) == b
  {
    if b != [] {
      ToFromBytes(b[1..]);
      assert FromBytes(b) / 256 == FromBytes(b[1..]) && FromBytes(b) % 256 == b[0];
    }
  }

  // Two's complement in n bytes.
  function Unsigned(v: int, n: nat): int {
    if v < 0 then v + Pow256(n) else v
  }

  function Signed(u: nat, n: nat): int {
    if 2 * u >= Pow256(n) then u - Pow256(n) else u
  }

  lemma Widths()
    ensures Pow256(2) == 0x1_0000
    ensures Pow256(4) == 0x1_0000_0000
    ensures Pow256(8) == 0x1_0000_0000_0000_0000
  {
    assert Pow256(1) == 256;
    assert Pow256(3) == 256 * Pow256(2);
    assert Pow256(5) == 256 * Pow256(4);
    assert Pow256(7) == 256 * 256 * Pow256(5);
  }

  function SignedBytes(v: int, n: nat): (b: seq<byte>)
    ensures |b| == n
  {
    var u := Unsigned(v, n);
    if u < 0 then ToBytes(0, n) else ToBytes(u, n)
  }

  function Encode(e: InputEvent): (b: seq<byte>)
    ensures |b| == EVENT_SIZE
  {
    SignedBytes(e.tvSec, 8) + SignedBytes(e.tvUsec, 8)
    + ToBytes(e.kind, 2) + ToBytes(e.code, 2) + SignedBytes(e.value, 4)
  }

  function Decode(b: seq<byte>): InputEvent
    requires |b| == EVENT_SIZE
  {
    InputEvent(
      Signed(FromBytes(b[0..8]), 8), Signed(FromBytes(b[8..16]), 8),
      FromBytes(b[16..18]), FromBytes(b[18..20]), Signed(FromBytes(b[20..24]), 4))
  }

  lemma SignedRoundTrip(v: int, n: nat)
    requires n > 0 && 0 <= 2 * v + Pow256(n) && 2 * v < Pow256(n)
    ensures Signed(FromBytes(SignedBytes(v, n)), n) == v
  {
    FromToBytes(Unsigned(v, n), n);
  }

  lemma SignBit(u: nat, n: nat)
    requires u < Pow256(n)
    ensures Unsigned(Signed(u, n), n) == u
  {
  }

  lemma UnsignedRoundTrip(b: seq<byte>)
    ensures SignedBytes(Signed(FromBytes(b), |b|), |b|) == b
  {
    var n := |b|;
    ToFromBytes(b);
    SignBit(FromBytes(b), n);
    assert SignedBytes(Signed(FromBytes(b), n), n) == ToBytes(FromBytes(b), n);
  }

  lemma DecodeEncode(e: InputEvent)
    requires e.Valid()
    ensures Decode(Encode(e)) == e
  {
    Widths();
    var b := Encode(e);
    assert b[0..8] == SignedBytes(e.tvSec, 8);
    assert b[8..16] == SignedBytes(e.tvUsec, 8);
    assert b[16..18] == ToBytes(e.kind, 2);
    assert b[18..20] == ToBytes(e.code, 2);
    assert b[20..24] == SignedBytes(e.value, 4);
    SignedRoundTrip(e.tvSec, 8);
    SignedRoundTrip(e.tvUsec, 8);
    FromToBytes(e.kind, 2);
    FromToBytes(e.code, 2);
    SignedRoundTrip(e.value, 4);
  }

  /** Any 24 bytes are the encoding of the event they decode to. */
  lemma EncodeDecode(b: seq<byte>)
    requires |b| == EVENT_SIZE
    ensures Encode(Decode(b)) == b
  {
    UnsignedRoundTrip(b[0..8]);
    UnsignedRoundTrip(b[8..16]);
    ToFromBytes(b[16..18]);
    ToFromBytes(b[18..20]);
    UnsignedRoundTrip(b[20..24]);
  }

  function EncodeAll(es: seq<InputEvent>): seq<byte> {
    if es == [] then [] else Encode(es[0]) + EncodeAll(es[1..])
  }

  function DecodeAll(b: seq<byte>): seq<InputEvent> {
    if |b| < EVENT_SIZE then [] else [Decode(b[..EVENT_SIZE])] + DecodeAll(b[EVENT_SIZE..])
  }

  lemma {:induction false} DecodeAllEncodeAll(es: seq<InputEvent>)
    requires forall e :: e in es ==> e.Valid()
    ensures DecodeAll(EncodeAll(es)) == es
    ensures |EncodeAll(es)| == EVENT_SIZE * |es|
  {
    if es != [] {
      DecodeEncode(es[0]);
      DecodeAllEncodeAll(es[1..]);
      assert EncodeAll(es)[..EVENT_SIZE] == Encode(es[0]);
      assert EncodeAll(es)[EVENT_SIZE..] == EncodeAll(es[1..]);
    }
  }

  lemma Associates(a: seq<byte>, b: seq<byte>, c: seq<byte>)
    ensures a + (b + c) == (a + b) + c
  {
  }

  lemma {:induction false} EncodeAllConcat(es: seq<InputEvent>, fs: seq<InputEvent>)
    ensures EncodeAll(es + fs) == EncodeAll(es) + EncodeAll(fs)
  {
    if es == [] {
      assert es + fs == fs;
    } else {
      EncodeAllConcat(es[1..], fs);
      assert (es + fs)[0] == es[0] && (es + fs)[1..] == es[1..] + fs;
      Associates(Encode(es[0]), EncodeAll(es[1..]), EncodeAll(fs));
    }
  }

  lemma EncodeSnoc(es: seq<InputEvent>, e: InputEvent, b: seq<byte>)
    requires Encode(e) == b
    ensures EncodeAll(es + [e]) == EncodeAll(es) + b
  {
    EncodeAllConcat(es, [e]);
    assert EncodeAll([e]) == b + EncodeAll([]);
  }

  predicate IsWheel(e: InputEvent) {
    && e.kind == EV_REL
    && e.code in {REL_WHEEL, REL_HWHEEL, REL_WHEEL_HI_RES, REL_HWHEEL_HI_RES}
  }

  /** The wheel events by the numbers of the kernel's interface: relative events on REL_HWHEEL (6),
      REL_WHEEL (8) and their hi-res forms (12 and 11), and nothing else. In a record the type is
      in bytes 16 and 17 and the code in bytes 18 and 19, low byte first. */
  lemma WheelBytesIff(b: seq<byte>)
    requires |b| == EVENT_SIZE
    ensures Decode(b).kind == b[16] as int + 256 * (b[17] as int)
    ensures Decode(b).code == b[18] as int + 256 * (b[19] as int)
    ensures IsWheel(Decode(b)) <==>
            b[16] == 2 && b[17] == 0 && b[19] == 0 && (b[18] == 6 || b[18] == 8 || b[18] == 11 || b[18] == 12)
  {
    TwoBytes(b[16..18]);
    TwoBytes(b[18..20]);
  }

  lemma TwoBytes(b: seq<byte>)
    requires |b| == 2
    ensures FromBytes(b) == b[0] as int + 256 * (b[1] as int)
  {
    assert b[1..][1..] == [] && FromBytes(b[1..]) == b[1];
  }

  lemma SmallBytes(v: byte, n: nat)
    ensures n > 0 ==> ToBytes(v, n)[0] == v && forall i :: 1 <= i < n ==> ToBytes(v, n)[i] == 0
    ensures v == 0 ==> forall i :: 0 <= i < n ==> ToBytes(v, n)[i] == 0
    decreases n
  {
    if n > 0 {
      SmallBytes(0, n - 1);
    }
  }

  /** Where each field is: a record with small fields, byte by byte, and the bytes of -1. */
  lemma Layout(sec: byte, usec: byte, kind: byte, code: byte, value: byte)
    requires 2 * value < 256
    ensures var b := Encode(InputEvent(sec, usec, kind, code, value));
            && b[0] == sec && b[8] == usec && b[16] == kind && b[18] == code && b[20] == value
            && forall i :: 0 <= i < 24 && i !in {0, 8, 16, 18, 20} ==> b[i] == 0
    ensures Encode(InputEvent(sec, usec, kind, code, -1))[20..] == [255, 255, 255, 255]
  {
    SmallBytes(sec, 8);
    SmallBytes(usec, 8);
    SmallBytes(kind, 2);
    SmallBytes(code, 2);
    SmallBytes(value, 4);
    Widths();
    assert ToBytes(255, 1) == [255] + ToBytes(0, 0);
    assert ToBytes(0xffff, 2) == [255] + ToBytes(255, 1);
    assert ToBytes(0xff_ffff, 3) == [255] + ToBytes(0xffff, 2);
    assert ToBytes(0xffff_ffff, 4) == [255] + ToBytes(0xff_ffff, 3) == [255, 255, 255, 255];
  }
}
