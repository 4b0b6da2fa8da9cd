/** The threads of a scroll destination: `ScrollSender` injects received events, `ScrollBlocker`
    filters the local device (`src/scroll/sender.rs`, `src/scroll/blocker.rs`). Writes to the
    virtual device are modelled as an append-only byte log and do not fail. */
module Scroll {
  import opened Wrappers
  import opened InputEvents
  import opened ScrollMath
  import opened Focus
  import opened Active

  const REQUEST_CAPACITY: nat := 32

  datatype RequestEvent = Activate | Deactivate

  class Uinput {
    var written: seq<byte>

    constructor ()
      ensures written == []
    {
      written := [];
    }

    method WriteRaw(bytes: seq<byte>)
      modifies this
      ensures written == old(written) + bytes
    {
      written := written + bytes;
    }
  }

  // What one more request makes of the bounded request queue.
  function Offer(requests: seq<RequestEvent>, r: RequestEvent): seq<RequestEvent> {
    if |requests| < REQUEST_CAPACITY then requests + [r] else requests
  }

  // What a send that was judged so, and a record of the local device, make of that queue.
  function AfterSend(requests: seq<RequestEvent>, verdict: Verdict, hostActive: bool): seq<RequestEvent> {
    if verdict == Suppress && hostActive then Offer(requests, Deactivate) else requests
  }

  function AfterRecord(requests: seq<RequestEvent>, hostActive: bool): seq<RequestEvent> {
    if hostActive then requests else Offer(requests, Activate)
  }

  /** The handle a scroll thread holds: the shared state and the queue of the request loop. */
  class Transport {
    const activeState: ActiveState
    var requests: seq<RequestEvent>

    constructor (activeState: ActiveState)
      ensures this.activeState == activeState && requests == []
    {
      this.activeState := activeState;
      requests := [];
    }

    method TrySend(r: RequestEvent) returns (sent: bool)
      modifies this`requests
      ensures requests == Offer(old(requests), r)
      ensures sent <==> |old(requests)| < REQUEST_CAPACITY
    {
      if |requests| >= REQUEST_CAPACITY {
        return false;
      }
      requests := requests + [r];
      return true;
    }

    // The request loop takes the next request: it calls the source, or skips the request.
    method NextRequest(hasSource: bool) returns (req: Option<ActivateEvent>)
      requires requests != []
      modifies this`requests
      ensures requests == old(requests)[1..]
      ensures var host, activate := activeState.hostPublicKey, old(requests)[0].Activate?;
              req == if hasSource && ShouldSend(host, activeState.Value(), activate)
                     then Some(ActivateEvent(host, activate)) else None
      // the same request by request
      ensures var host, peer := activeState.hostPublicKey, activeState.activePeer;
              && (old(requests)[0] == Activate ==>
                    req == if hasSource && peer != Some(host) then Some(ActivateEvent(host, true)) else None)
              && (old(requests)[0] == Deactivate ==>
                    req == if hasSource && (peer == None || peer == Some(host)) then Some(ActivateEvent(host, false)) else None)
    {
      var event := requests[0];
      requests := requests[1..];
      req := activeState.BeginRequest(hasSource, event.Activate?);
    }
  }

  // --- The events of one send ---------------------------------------------------------------

  function Optional(sec: int, usec: int, code: nat, value: int): seq<InputEvent> {
    if value == 0 then [] else [InputEvent(sec, usec, EV_REL, code, value)]
  }

  // What a scroll of (deltaX, deltaY) is meant to put on the device.
  function Intended(sec: int, usec: int, deltaX: real, deltaY: real): seq<InputEvent> {
    var y, x := HiRes(deltaY), HiRes(deltaX);
    Optional(sec, usec, REL_WHEEL_HI_RES, y)
    + Optional(sec, usec, REL_HWHEEL_HI_RES, x)
    + Optional(sec, usec, REL_WHEEL, Clicks(y))
    + Optional(sec, usec, REL_HWHEEL, Clicks(x))
    + [InputEvent(sec, usec, EV_SYN, SYN_REPORT, 0)]
  }

  ghost predicate TimeOfDay(sec: int, usec: int) {
    InputEvent(sec, usec, 0, 0, 0).Valid()
  }

  method PutEvent(buf: array<byte>, offset: nat, e: InputEvent) returns (next: nat)
    requires offset + EVENT_SIZE <= buf.Length
    modifies buf
    ensures next == offset + EVENT_SIZE
    ensures buf[..next] == old(buf[..offset]) + Encode(e)
  {
    var bytes := Encode(e);
    forall i | 0 <= i < EVENT_SIZE {
      buf[offset + i] := bytes[i];
    }
    next := offset + EVENT_SIZE;
    assert buf[..offset] == old(buf[..offset]);
    assert buf[offset..next] == bytes;
    assert buf[..next] == buf[..offset] + buf[offset..next];
  }

  // Adds one event of the list when its value is not zero, as the four `if` blocks do.
  method PutOptional(buf: array<byte>, offset: nat, ghost sofar: seq<InputEvent>,
                     sec: int, usec: int, code: nat, value: int) returns (next: nat)
    requires offset + EVENT_SIZE <= buf.Length
    requires buf[..offset] == EncodeAll(sofar)
    modifies buf
    ensures next == offset || next == offset + EVENT_SIZE
    ensures next <= buf.Length
    ensures buf[..next] == EncodeAll(sofar + Optional(sec, usec, code, value))
  {
    next := offset;
    if value != 0 {
      var e := InputEvent(sec, usec, EV_REL, code, value);
      next := PutEvent(buf, offset, e);
      EncodeSnoc(sofar, e, Encode(e));
    } else {
      assert sofar + Optional(sec, usec, code, value) == sofar;
    }
  }

  method Pack(sec: int, usec: int, deltaX: real, deltaY: real) returns (buf: array<byte>, offset: nat)
    ensures fresh(buf) && buf.Length == 5 * EVENT_SIZE && offset <= buf.Length
    ensures buf[..offset] == EncodeAll(Intended(sec, usec, deltaX, deltaY))
  {
    var y, x := HiRes(deltaY), HiRes(deltaX);
    var dy, dx := Clicks(y), Clicks(x);
    buf := new byte[5 * EVENT_SIZE](_ => 0);
    offset := 0;
    assert buf[..0] == EncodeAll([]);
    ghost var one := Optional(sec, usec, REL_WHEEL_HI_RES, y);
    assert [] + one == one;
    ghost var two := one + Optional(sec, usec, REL_HWHEEL_HI_RES, x);
    ghost var three := two + Optional(sec, usec, REL_WHEEL, dy);
    ghost var four := three + Optional(sec, usec, REL_HWHEEL, dx);
    offset := PutOptional(buf, offset, [], sec, usec, REL_WHEEL_HI_RES, y);
    offset := PutOptional(buf, offset, one, sec, usec, REL_HWHEEL_HI_RES, x);
    offset := PutOptional(buf, offset, two, sec, usec, REL_WHEEL, dy);
    offset := PutOptional(buf, offset, three, sec, usec, REL_HWHEEL, dx);
    var syn := InputEvent(sec, usec, EV_SYN, SYN_REPORT, 0);
    offset := PutEvent(buf, offset, syn);
    EncodeSnoc(four, syn, Encode(syn));
    assert four + [syn] == Intended(sec, usec, deltaX, deltaY);
  }

  lemma IntendedIsNotEmpty(sec: int, usec: int, deltaX: real, deltaY: real)
    ensures EncodeAll(Intended(sec, usec, deltaX, deltaY)) != []
  {
    var es := Intended(sec, usec, deltaX, deltaY);
    assert |EncodeAll(es)| >= |Encode(es[0])|;
  }

  class ScrollSender {
    const uinput: Uinput
    const transport: Transport

    constructor (uinput: Uinput, transport: Transport)
      ensures this.uinput == uinput && this.transport == transport
    {
      this.uinput, this.transport := uinput, transport;
    }

    ghost function FocusValue(): FocusState
      reads transport.activeState`lastScroll, transport.activeState`lastBlur
    {
      FocusState(transport.activeState.lastScroll, transport.activeState.lastBlur)
    }

    // `now` is the monotonic clock and (sec, usec) the wall clock, both read by the call.
    method Send(now: nat, sec: int, usec: int, deltaX: real, deltaY: real)
      requires now < U64
      requires transport.activeState.lastScroll < U64 && transport.activeState.lastBlur < U64
      modifies transport.activeState`lastBlur, transport`requests, uinput
      ensures FocusValue() == Judge(old(FocusValue()), now).0
      ensures uinput.written == old(uinput.written) +
                if Judge(old(FocusValue()), now).1 == Inject
                then EncodeAll(Intended(sec, usec, deltaX, deltaY)) else []
      ensures transport.requests == AfterSend(
                old(transport.requests), Judge(old(FocusValue()), now).1, transport.activeState.hostActive)
      // the same in terms of the two timestamps and the room in the queue
      ensures var f := old(FocusValue());
              var away := f.lastScroll > 0 && Minus(now, f.lastScroll) > 120;
              var gone := away && f.lastBlur > 0 && Minus(now, f.lastBlur) > 50;
              && FocusValue() == f.(lastBlur := if !away then 0 else if f.lastBlur == 0 then now else f.lastBlur)
              && (gone <==> uinput.written == old(uinput.written))
              && transport.requests == old(transport.requests) +
                   if gone && transport.activeState.hostActive && |old(transport.requests)| < 32 then [Deactivate] else []
    {
      IntendedIsNotEmpty(sec, usec, deltaX, deltaY);
      var buf, offset := Pack(sec, usec, deltaX, deltaY);
      var lastScroll := transport.activeState.lastScroll;
      if lastScroll > 0 && Minus(now, lastScroll) > SCROLL_TTL {
        var lastBlur := transport.activeState.lastBlur;
        if lastBlur == 0 {
          transport.activeState.lastBlur := now;
        } else if Minus(now, lastBlur) > BLUR_TTL {
          if transport.activeState.hostActive {
            var _ := transport.TrySend(Deactivate);
          }
          return;
        }
      } else {
        transport.activeState.lastBlur := 0;
      }
      uinput.WriteRaw(buf[..offset]);
    }
  }

  function FromNeBytes(lo: byte, hi: byte): nat {
    lo as int + 256 * (hi as int)
  }

  class ScrollBlocker {
    const uinput: Uinput
    const transport: Transport

    constructor (uinput: Uinput, transport: Transport)
      ensures this.uinput == uinput && this.transport == transport
    {
      this.uinput, this.transport := uinput, transport;
    }

    // `buf` is the record just read from the grabbed device.
    method ProcessEvent(buf: seq<byte>, now: nat)
      requires |buf| == EVENT_SIZE
      modifies transport.activeState`lastScroll, transport`requests, uinput
      ensures var wheel := && buf[16] == 2 && buf[17] == 0 && buf[19] == 0
                           && (buf[18] == 6 || buf[18] == 8 || buf[18] == 11 || buf[18] == 12);
              && uinput.written == old(uinput.written) + (if wheel then [] else buf)
              && transport.activeState.lastScroll == (if wheel then now else old(transport.activeState.lastScroll))
      ensures transport.requests == AfterRecord(old(transport.requests), transport.activeState.hostActive)
      ensures transport.requests == old(transport.requests) +
                if transport.activeState.hostActive || |old(transport.requests)| >= 32 then [] else [Activate]
    {
      if FromNeBytes(buf[16], buf[17]) == EV_REL {
        var code := FromNeBytes(buf[18], buf[19]);
        if code == REL_WHEEL || code == REL_HWHEEL || code == REL_WHEEL_HI_RES || code == REL_HWHEEL_HI_RES {
          transport.activeState.lastScroll := now;
        } else {
          uinput.WriteRaw(buf);
        }
      } else {
        uinput.WriteRaw(buf);
      }
      if !transport.activeState.hostActive {
        var _ := transport.TrySend(Activate);
      }
    }

    // The loop of `run` over the records it gets before it is cancelled.
    method Run(records: seq<seq<byte>>, times: seq<nat>)
      requires |records| == |times| && forall r :: r in records ==> |r| == EVENT_SIZE
      modifies transport.activeState`lastScroll, transport`requests, uinput
      ensures uinput.written == old(uinput.written) + Passed(records)
      ensures transport.activeState.lastScroll == LastWheel(records, times, old(transport.activeState.lastScroll))
    {
      ghost var before, start := uinput.written, transport.activeState.lastScroll;
      var i := 0;
      while i < |records|
        invariant 0 <= i <= |records|
        invariant uinput.written == before + Passed(records[..i])
        invariant transport.activeState.lastScroll == LastWheel(records[..i], times[..i], start)
      {
        ProcessEvent(records[i], times[i]);
        WheelBytesIff(records[i]);
        PassedSnoc(before, records, i);
        LastWheelSnoc(records, times, i, start);
        i := i + 1;
      }
      assert records[..|records|] == records && times[..|times|] == times;
    }
  }

  // The records a blocker lets through, one after the other.
  ghost function Passed(records: seq<seq<byte>>): seq<byte>
    requires forall r :: r in records ==> |r| == EVENT_SIZE
  {
    if records == [] then []
    else
      var last := records[|records| - 1];
      Passed(records[..|records| - 1]) + if IsWheel(Decode(last)) then [] else last
  }

  ghost function LastWheel(records: seq<seq<byte>>, times: seq<nat>, before: nat): nat
    requires |records| == |times| && forall r :: r in records ==> |r| == EVENT_SIZE
  {
    if records == [] then before
    else
      var n := |records| - 1;
      if IsWheel(Decode(records[n])) then times[n] else LastWheel(records[..n], times[..n], before)
  }

  lemma PassedSnoc(before: seq<byte>, records: seq<seq<byte>>, i: nat)
    requires i < |records| && forall r :: r in records ==> |r| == EVENT_SIZE
    ensures before + Passed(records[..i + 1])
            == before + Passed(records[..i]) + if IsWheel(Decode(records[i])) then [] else records[i]
  {
    assert records[..i + 1][..i] == records[..i];
    Associates(before, Passed(records[..i]), if IsWheel(Decode(records[i])) then [] else records[i]);
  }

  lemma LastWheelSnoc(records: seq<seq<byte>>, times: seq<nat>, i: nat, before: nat)
    requires i < |records| == |times| && forall r :: r in records ==> |r| == EVENT_SIZE
    ensures LastWheel(records[..i + 1], times[..i + 1], before)
            == if IsWheel(Decode(records[i])) then times[i] else LastWheel(records[..i], times[..i], before)
  {
    assert records[..i + 1][..i] == records[..i] && times[..i + 1][..i] == times[..i];
  }

  // --- What is on the device ----------------------------------------------------------------

  /** Decoding what one send wrote gives back exactly the intended events; there are at most
      five, so they fit the buffer. */
  lemma PackedRoundTrip(sec: int, usec: int, deltaX: real, deltaY: real)
    requires TimeOfDay(sec, usec)
    ensures var es := Intended(sec, usec, deltaX, deltaY);
            DecodeAll(EncodeAll(es)) == es && |es| <= 5 && |EncodeAll(es)| <= 5 * EVENT_SIZE
  {
    var es := Intended(sec, usec, deltaX, deltaY);
    forall e | e in es ensures e.Valid() {
    }
    DecodeAllEncodeAll(es);
  }

  // The place of an event in the list of one send.
  ghost function Place(e: InputEvent): nat {
    if e.kind == 0 then 4 else if e.code == 11 then 0 else if e.code == 12 then 1 else if e.code == 8 then 2 else 3
  }

  /** The list of one send: its events carry the time of the send; they come in the order hi-res
      wheel, hi-res horizontal wheel, wheel, horizontal wheel, report; no wheel event is zero, and
      each of the four is there if and only if its value is not. */
  lemma IntendedIs(sec: int, usec: int, deltaX: real, deltaY: real)
    ensures var es := Intended(sec, usec, deltaX, deltaY);
            && (forall e :: e in es ==> e.tvSec == sec && e.tvUsec == usec && (e.kind == 0 || (e.kind == 2 && e.value != 0)))
            && (forall i, j :: 0 <= i < j < |es| ==> Place(es[i]) < Place(es[j]))
            && (InputEvent(sec, usec, 2, 11, HiRes(deltaY)) in es <==> HiRes(deltaY) != 0)
            && (InputEvent(sec, usec, 2, 12, HiRes(deltaX)) in es <==> HiRes(deltaX) != 0)
            && (InputEvent(sec, usec, 2, 8, Clicks(HiRes(deltaY))) in es <==> Clicks(HiRes(deltaY)) != 0)
            && (InputEvent(sec, usec, 2, 6, Clicks(HiRes(deltaX))) in es <==> Clicks(HiRes(deltaX)) != 0)
            && InputEvent(sec, usec, 0, 0, 0) in es
  {
  }

  /** A click event is always accompanied by the hi-res event of its axis, in the same direction
      and at least 120 times as large; the list ends with its only SYN_REPORT. */
  lemma ClickImpliesHiRes(sec: int, usec: int, deltaX: real, deltaY: real, e: InputEvent)
    requires e in Intended(sec, usec, deltaX, deltaY)
    ensures e.kind == EV_SYN ==> e == InputEvent(sec, usec, EV_SYN, SYN_REPORT, 0)
    ensures var es := Intended(sec, usec, deltaX, deltaY);
            es[|es| - 1].kind == EV_SYN && forall i :: 0 <= i < |es| - 1 ==> es[i].kind == EV_REL
    ensures e.kind == EV_REL && e.code in {REL_WHEEL, REL_HWHEEL} ==>
              exists h :: && h in Intended(sec, usec, deltaX, deltaY)
                          && h.kind == EV_REL
                          && h.code == (if e.code == REL_WHEEL then REL_WHEEL_HI_RES else REL_HWHEEL_HI_RES)
                          && (if e.value > 0 then h.value >= 120 * e.value else h.value <= 120 * e.value < 0)
  {
  }

  ghost function Kept(es: seq<InputEvent>): seq<InputEvent> {
    if es == [] then []
    else Kept(es[..|es| - 1]) + if IsWheel(es[|es| - 1]) then [] else [es[|es| - 1]]
  }

  ghost function Decoded(records: seq<seq<byte>>): seq<InputEvent>
    requires forall r :: r in records ==> |r| == EVENT_SIZE
  {
    if records == [] then []
    else Decoded(records[..|records| - 1]) + [Decode(records[|records| - 1])]
  }

  // The events of one type and code, in order.
  ghost function Only(es: seq<InputEvent>, kind: nat, code: nat): seq<InputEvent> {
    if es == [] then []
    else
      var last := es[|es| - 1];
      Only(es[..|es| - 1], kind, code) + if last.kind == kind && last.code == code then [last] else []
  }

  lemma {:induction false} OnlyOfKept(es: seq<InputEvent>, kind: nat, code: nat)
    ensures Only(Kept(es), kind, code)
            == if kind == 2 && (code == 6 || code == 8 || code == 11 || code == 12) then [] else Only(es, kind, code)
  {
    if es != [] {
      var front, last := es[..|es| - 1], es[|es| - 1];
      OnlyOfKept(front, kind, code);
      assert (Kept(front) + [last])[..|Kept(front)|] == Kept(front);
      assert Kept(es) == if IsWheel(last) then Kept(front) else Kept(front) + [last];
    }
  }

  /** What a blocker lets through, decoded, is exactly its input with the wheel events taken
      out: nothing else is lost, changed or moved. So of every type and code other than the four
      of the wheel, such as pointer motion, keys and reports, the same events come out in the same
      order, and of those four none. */
  lemma {:induction false} BlockerFilters(records: seq<seq<byte>>)
    requires forall r :: r in records ==> |r| == EVENT_SIZE
    ensures Passed(records) == EncodeAll(Kept(Decoded(records)))
    ensures DecodeAll(Passed(records)) == Kept(Decoded(records))
    ensures forall kind: nat, code: nat ::
              Only(DecodeAll(Passed(records)), kind, code)
              == if kind == 2 && (code == 6 || code == 8 || code == 11 || code == 12) then []
                 else Only(Decoded(records), kind, code)
  {
    forall kind: nat, code: nat
      ensures Only(Kept(Decoded(records)), kind, code)
              == if kind == 2 && (code == 6 || code == 8 || code == 11 || code == 12) then []
                 else Only(Decoded(records), kind, code)
    {
      OnlyOfKept(Decoded(records), kind, code);
    }
    BlockerEncodes(records);
    DecodedAreValid(records);
    KeptComeFrom(Decoded(records));
    DecodeAllEncodeAll(Kept(Decoded(records)));
  }

  lemma {:induction false} DecodedAreValid(records: seq<seq<byte>>)
    requires forall r :: r in records ==> |r| == EVENT_SIZE
    ensures forall e :: e in Decoded(records) ==> e.Valid()
  {
    if records != [] {
      DecodedAreValid(records[..|records| - 1]);
      DecodedIsValid(records[|records| - 1]);
    }
  }

  lemma {:induction false} BlockerEncodes(records: seq<seq<byte>>)
    requires forall r :: r in records ==> |r| == EVENT_SIZE
    ensures Passed(records) == EncodeAll(Kept(Decoded(records)))
  {
    if records != [] {
      var n := |records| - 1;
      BlockerEncodes(records[..n]);
      EncodeDecode(records[n]);
      BlockerStep(Decoded(records[..n]), Decode(records[n]), records[n]);
    }
  }

  lemma BlockerStep(es: seq<InputEvent>, e: InputEvent, b: seq<byte>)
    requires Encode(e) == b
    ensures EncodeAll(Kept(es + [e])) == EncodeAll(Kept(es)) + if IsWheel(e) then [] else b
  {
    KeptSnoc(es, e);
    if IsWheel(e) {
      assert Kept(es + [e]) == Kept(es);
    } else {
      EncodeSnoc(Kept(es), e, b);
    }
  }

  lemma KeptSnoc(es: seq<InputEvent>, e: InputEvent)
    ensures Kept(es + [e]) == Kept(es) + if IsWheel(e) then [] else [e]
  {
  }

  lemma {:induction false} KeptComeFrom(es: seq<InputEvent>)
    ensures forall e :: e in Kept(es) ==> e in es && !IsWheel(e)
  {
    if es != [] {
      KeptComeFrom(es[..|es| - 1]);
    }
  }

  lemma DecodedIsValid(b: seq<byte>)
    requires |b| == EVENT_SIZE
    ensures Decode(b).Valid()
  {
    Widths();
    ToFromBytes(b[0..8]);
    ToFromBytes(b[8..16]);
    ToFromBytes(b[16..18]);
    ToFromBytes(b[18..20]);
    ToFromBytes(b[20..24]);
  }
}
