/** The virtual device of a scroll destination. Its blocker threads and its sender thread write to
    one uinput in some order (`src/daemon/scroll.rs:71-123`); this module says what any such
    order leaves on the device. One call of either thread is one atomic step. */
module Device {
  import opened InputEvents
  import opened ScrollMath
  import opened Focus
  import opened Scroll

  // One received scroll event and the wall clock when it was injected.
  datatype Scrolled = Scrolled(sec: int, usec: int, deltaX: real, deltaY: real)

  // A blocker reads a record of its grabbed device, or the sender takes a received event.
  datatype DeviceAct = Local(record: seq<byte>, at: nat) | Received(scroll: Scrolled, at: nat)

  ghost predicate Bounded(f: FocusState) {
    f.lastScroll < U64 && f.lastBlur < U64
  }

  ghost predicate Fits(a: DeviceAct) {
    a.at < U64 && (a.Local? ==> |a.record| == EVENT_SIZE)
  }

  ghost predicate AllFit(acts: seq<DeviceAct>) {
    forall i :: 0 <= i < |acts| ==> Fits(acts[i])
  }

  predicate WheelRecord(record: seq<byte>) {
    |record| == EVENT_SIZE && IsWheel(Decode(record))
  }

  function IntendedBy(x: Scrolled): seq<InputEvent> {
    Intended(x.sec, x.usec, x.deltaX, x.deltaY)
  }

  // How the blur machine sees an act.
  function FocusAct(a: DeviceAct): Act {
    match a
    case Local(record, t) => if WheelRecord(record) then LocalScroll(t) else LocalOther(t)
    case Received(_, t) => Send(t)
  }

  ghost function FocusTrace(acts: seq<DeviceAct>): (trace: seq<Act>)
    requires AllFit(acts)
    ensures |trace| == |acts|
    ensures forall i :: 0 <= i < |acts| ==> trace[i] == FocusAct(acts[i]) && trace[i].at < U64
  {
    seq(|acts|, i requires 0 <= i < |acts| => FocusAct(acts[i]))
  }

  // The bytes one act writes when the timestamps are as in f.
  ghost function Wrote(f: FocusState, a: DeviceAct): seq<byte>
    requires Bounded(f) && Fits(a)
  {
    match a
    case Local(record, _) => if WheelRecord(record) then [] else record
    case Received(x, t) => if Judge(f, t).1 == Inject then EncodeAll(IntendedBy(x)) else []
  }

  // The request one act makes at a host that is active or not.
  ghost function Asked(f: FocusState, a: DeviceAct, active: bool): (rs: seq<RequestEvent>)
    requires Bounded(f) && Fits(a)
    ensures |rs| <= 1
  {
    match a
    case Local(_, _) => if active then [] else [Activate]
    case Received(_, t) => if Judge(f, t).1 == Suppress && active then [Deactivate] else []
  }

  // What requests made one after the other leave in the bounded queue.
  ghost function OfferEach(q: seq<RequestEvent>, rs: seq<RequestEvent>): seq<RequestEvent> {
    if rs == [] then q else Offer(OfferEach(q, rs[..|rs| - 1]), rs[|rs| - 1])
  }

  lemma {:induction false} OfferEachConcat(q: seq<RequestEvent>, rs: seq<RequestEvent>, ss: seq<RequestEvent>)
    ensures OfferEach(q, rs + ss) == OfferEach(OfferEach(q, rs), ss)
  {
    if ss == [] {
      assert rs + ss == rs;
    } else {
      OfferEachConcat(q, rs, ss[..|ss| - 1]);
      assert (rs + ss)[..|rs + ss| - 1] == rs + ss[..|ss| - 1];
    }
  }

  // Entry i of `bytes` is what act i writes when the timestamps were as in f before all acts.
  ghost predicate WroteAt(f: FocusState, acts: seq<DeviceAct>, bytes: seq<seq<byte>>, i: nat)
    requires Bounded(f) && AllFit(acts) && i < |bytes| <= |acts|
  {
    bytes[i] == Wrote(From(f, FocusTrace(acts), i), acts[i])
  }

  // The list of bytes the first acts write, one entry for each.
  ghost predicate Output(f: FocusState, acts: seq<DeviceAct>, bytes: seq<seq<byte>>)
    requires Bounded(f) && AllFit(acts)
  {
    |bytes| <= |acts| && forall i :: 0 <= i < |bytes| ==> WroteAt(f, acts, bytes, i)
  }

  // The same for the requests.
  ghost predicate AskedAt(f: FocusState, acts: seq<DeviceAct>, active: bool, asks: seq<seq<RequestEvent>>, i: nat)
    requires Bounded(f) && AllFit(acts) && i < |asks| <= |acts|
  {
    asks[i] == Asked(From(f, FocusTrace(acts), i), acts[i], active)
  }

  ghost predicate Requests(f: FocusState, acts: seq<DeviceAct>, active: bool, asks: seq<seq<RequestEvent>>)
    requires Bounded(f) && AllFit(acts)
  {
    |asks| <= |acts| && forall i :: 0 <= i < |asks| ==> AskedAt(f, acts, active, asks, i)
  }

  ghost function Flat<T>(parts: seq<seq<T>>): seq<T> {
    if parts == [] then [] else Flat(parts[..|parts| - 1]) + parts[|parts| - 1]
  }

  lemma FlatSnoc<T>(before: seq<T>, parts: seq<seq<T>>, part: seq<T>)
    ensures before + Flat(parts + [part]) == before + Flat(parts) + part
  {
    assert (parts + [part])[..|parts|] == parts;
    assert before + (Flat(parts) + part) == before + Flat(parts) + part;
  }

  // One call of a blocker thread or of the sender thread.
  method Call(blocker: ScrollBlocker, sender: ScrollSender, act: DeviceAct)
    requires blocker.uinput == sender.uinput && blocker.transport == sender.transport
    requires Fits(act) && Bounded(sender.FocusValue())
    modifies sender.transport.activeState`lastScroll, sender.transport.activeState`lastBlur
    modifies sender.transport`requests, sender.uinput
    ensures sender.FocusValue() == FocusStep(old(sender.FocusValue()), FocusAct(act))
    ensures sender.uinput.written == old(sender.uinput.written) + Wrote(old(sender.FocusValue()), act)
    ensures sender.transport.requests == OfferEach(
              old(sender.transport.requests),
              Asked(old(sender.FocusValue()), act, sender.transport.activeState.hostActive))
  {
    match act {
      case Local(record, now) =>
        WheelBytesIff(record);
        blocker.ProcessEvent(record, now);
      case Received(x, now) =>
        sender.Send(now, x.sec, x.usec, x.deltaX, x.deltaY);
    }
    OneOffer(old(sender.transport.requests), Asked(old(sender.FocusValue()), act, sender.transport.activeState.hostActive));
  }

  lemma OneOffer(q: seq<RequestEvent>, rs: seq<RequestEvent>)
    requires |rs| <= 1
    ensures OfferEach(q, rs) == if rs == [] then q else Offer(q, rs[0])
  {
    if rs != [] {
      assert OfferEach(q, rs[..0]) == q;
    }
  }

  // What the host's threads work on, before they start.
  datatype Before = Before(focus: FocusState, written: seq<byte>, requests: seq<RequestEvent>, active: bool)

  ghost function BeforeOf(sender: ScrollSender): Before
    reads sender.transport, sender.transport.activeState, sender.uinput
  {
    Before(sender.FocusValue(), sender.uinput.written, sender.transport.requests, sender.transport.activeState.hostActive)
  }

  // What one act makes of it.
  ghost function AfterAct(x: Before, a: DeviceAct): Before
    requires Bounded(x.focus) && Fits(a)
  {
    Before(FocusStep(x.focus, FocusAct(a)), x.written + Wrote(x.focus, a),
           OfferEach(x.requests, Asked(x.focus, a, x.active)), x.active)
  }

  // Entry i of each list is what act i writes and asks for.
  ghost predicate Told(b: Before, acts: seq<DeviceAct>, bytes: seq<seq<byte>>, asks: seq<seq<RequestEvent>>)
    requires Bounded(b.focus) && AllFit(acts)
  {
    |bytes| == |asks| && Output(b.focus, acts, bytes) && Requests(b.focus, acts, b.active, asks)
  }

  // Where the first |bytes| acts take it.
  ghost function Then(b: Before, acts: seq<DeviceAct>, bytes: seq<seq<byte>>, asks: seq<seq<RequestEvent>>): (r: Before)
    requires Bounded(b.focus) && AllFit(acts) && Told(b, acts, bytes, asks)
    ensures Bounded(r.focus)
  {
    Before(From(b.focus, FocusTrace(acts), |bytes|), b.written + Flat(bytes), OfferEach(b.requests, Flat(asks)), b.active)
  }

  ghost predicate Reached(sender: ScrollSender, b: Before, acts: seq<DeviceAct>,
                          bytes: seq<seq<byte>>, asks: seq<seq<RequestEvent>>)
    requires Bounded(b.focus) && AllFit(acts)
    reads sender.transport, sender.transport.activeState, sender.uinput
  {
    Told(b, acts, bytes, asks) && BeforeOf(sender) == Then(b, acts, bytes, asks)
  }

  lemma OneMore(b: Before, acts: seq<DeviceAct>, bytes: seq<seq<byte>>, asks: seq<seq<RequestEvent>>)
      returns (bytes': seq<seq<byte>>, asks': seq<seq<RequestEvent>>)
    requires Bounded(b.focus) && AllFit(acts) && Told(b, acts, bytes, asks) && |bytes| < |acts|
    ensures Told(b, acts, bytes', asks') && |bytes'| == |bytes| + 1
    ensures Then(b, acts, bytes', asks') == AfterAct(Then(b, acts, bytes, asks), acts[|bytes|])
  {
    bytes' := MoreBytes(b, acts, bytes);
    asks' := MoreAsks(b, acts, asks);
  }

  lemma MoreBytes(b: Before, acts: seq<DeviceAct>, bytes: seq<seq<byte>>) returns (more: seq<seq<byte>>)
    requires Bounded(b.focus) && AllFit(acts) && Output(b.focus, acts, bytes) && |bytes| < |acts|
    ensures |more| == |bytes| + 1 && Output(b.focus, acts, more)
    ensures b.written + Flat(more)
            == b.written + Flat(bytes) + Wrote(From(b.focus, FocusTrace(acts), |bytes|), acts[|bytes|])
  {
    var wrote := Wrote(From(b.focus, FocusTrace(acts), |bytes|), acts[|bytes|]);
    more := bytes + [wrote];
    FlatSnoc(b.written, bytes, wrote);
    forall i | 0 <= i < |more| ensures WroteAt(b.focus, acts, more, i) {
      if i < |bytes| {
        assert WroteAt(b.focus, acts, bytes, i);
      }
    }
  }

  lemma MoreAsks(b: Before, acts: seq<DeviceAct>, asks: seq<seq<RequestEvent>>) returns (more: seq<seq<RequestEvent>>)
    requires Bounded(b.focus) && AllFit(acts) && Requests(b.focus, acts, b.active, asks) && |asks| < |acts|
    ensures |more| == |asks| + 1 && Requests(b.focus, acts, b.active, more)
    ensures OfferEach(b.requests, Flat(more)) == OfferEach(
              OfferEach(b.requests, Flat(asks)),
              Asked(From(b.focus, FocusTrace(acts), |asks|), acts[|asks|], b.active))
  {
    var asked := Asked(From(b.focus, FocusTrace(acts), |asks|), acts[|asks|], b.active);
    more := asks + [asked];
    assert AskedAt(b.focus, acts, b.active, more, |asks|);
    RequestsSnoc(b.focus, acts, b.active, asks, asked);
    FlatOffer(b.requests, asks, asked);
  }

  lemma RequestsSnoc(f: FocusState, acts: seq<DeviceAct>, active: bool, asks: seq<seq<RequestEvent>>, asked: seq<RequestEvent>)
    requires Bounded(f) && AllFit(acts) && Requests(f, acts, active, asks) && |asks| < |acts|
    requires AskedAt(f, acts, active, asks + [asked], |asks|)
    ensures Requests(f, acts, active, asks + [asked])
  {
    var more := asks + [asked];
    forall i | 0 <= i < |more| ensures AskedAt(f, acts, active, more, i) {
      if i == |asks| {
      } else {
        AskedKept(f, acts, active, asks, more, i);
      }
    }
  }

  lemma AskedKept(f: FocusState, acts: seq<DeviceAct>, active: bool, asks: seq<seq<RequestEvent>>,
                  more: seq<seq<RequestEvent>>, i: nat)
    requires Bounded(f) && AllFit(acts) && Requests(f, acts, active, asks)
    requires i < |asks| <= |more| <= |acts| && asks[i] == more[i]
    ensures AskedAt(f, acts, active, more, i)
  {
    assert AskedAt(f, acts, active, asks, i);
  }

  lemma FlatOffer(q: seq<RequestEvent>, asks: seq<seq<RequestEvent>>, asked: seq<RequestEvent>)
    ensures OfferEach(q, Flat(asks + [asked])) == OfferEach(OfferEach(q, Flat(asks)), asked)
  {
    assert (asks + [asked])[..|asks|] == asks;
    OfferEachConcat(q, Flat(asks), asked);
  }

  method CallNext(blocker: ScrollBlocker, sender: ScrollSender, ghost b: Before, acts: seq<DeviceAct>, i: nat,
                  ghost bytes: seq<seq<byte>>, ghost asks: seq<seq<RequestEvent>>)
      returns (ghost bytes': seq<seq<byte>>, ghost asks': seq<seq<RequestEvent>>)
    requires blocker.uinput == sender.uinput && blocker.transport == sender.transport
    requires Bounded(b.focus) && AllFit(acts) && i < |acts| && |bytes| == i && Reached(sender, b, acts, bytes, asks)
    modifies sender.transport.activeState`lastScroll, sender.transport.activeState`lastBlur
    modifies sender.transport`requests, sender.uinput
    ensures |bytes'| == i + 1 && Reached(sender, b, acts, bytes', asks')
  {
    Call(blocker, sender, acts[i]);
    bytes', asks' := OneMore(b, acts, bytes, asks);
  }

  // Any interleaving of the calls of the blocker threads and of the sender thread. Nothing is
  // taken from the request queue meanwhile, and the host stays active or inactive.
  method Interleave(blocker: ScrollBlocker, sender: ScrollSender, acts: seq<DeviceAct>)
      returns (ghost bytes: seq<seq<byte>>, ghost asks: seq<seq<RequestEvent>>)
    requires blocker.uinput == sender.uinput && blocker.transport == sender.transport
    requires AllFit(acts) && Bounded(sender.FocusValue())
    modifies sender.transport.activeState`lastScroll, sender.transport.activeState`lastBlur
    modifies sender.transport`requests, sender.uinput
    ensures |bytes| == |asks| == |acts|
    ensures Output(old(sender.FocusValue()), acts, bytes)
    ensures Requests(old(sender.FocusValue()), acts, sender.transport.activeState.hostActive, asks)
    ensures sender.FocusValue() == From(old(sender.FocusValue()), FocusTrace(acts), |acts|)
    ensures sender.uinput.written == old(sender.uinput.written) + Flat(bytes)
    ensures sender.transport.requests == OfferEach(old(sender.transport.requests), Flat(asks))
  {
    ghost var b := BeforeOf(sender);
    bytes, asks := [], [];
    var i := 0;
    while i < |acts|
      invariant 0 <= i <= |acts| && |bytes| == i
      invariant Reached(sender, b, acts, bytes, asks)
    {
      bytes, asks := CallNext(blocker, sender, b, acts, i, bytes, asks);
      i := i + 1;
    }
  }

  // One iteration of the drain loop.
  method SendNext(sender: ScrollSender, ghost b: Before, received: seq<DeviceAct>, i: nat,
                  ghost bytes: seq<seq<byte>>, ghost asks: seq<seq<RequestEvent>>)
      returns (ghost bytes': seq<seq<byte>>, ghost asks': seq<seq<RequestEvent>>)
    requires Bounded(b.focus) && AllFit(received) && i < |received| && received[i].Received?
    requires |bytes| == i && Reached(sender, b, received, bytes, asks)
    modifies sender.transport.activeState`lastBlur, sender.transport`requests, sender.uinput
    ensures |bytes'| == i + 1 && Reached(sender, b, received, bytes', asks')
  {
    var event := received[i].scroll;
    ghost var q, asked := sender.transport.requests, Asked(sender.FocusValue(), received[i], b.active);
    sender.Send(received[i].at, event.sec, event.usec, event.deltaX, event.deltaY);
    OneOffer(q, asked);
    bytes', asks' := OneMore(b, received, bytes, asks);
  }

  // The drain loop of the sender thread, over the events it gets before the queue closes.
  method RunScrollInject(sender: ScrollSender, received: seq<DeviceAct>)
      returns (ghost bytes: seq<seq<byte>>, ghost asks: seq<seq<RequestEvent>>)
    requires AllFit(received) && forall i :: 0 <= i < |received| ==> received[i].Received?
    requires Bounded(sender.FocusValue())
    modifies sender.transport.activeState`lastBlur, sender.transport`requests, sender.uinput
    ensures |bytes| == |asks| == |received|
    ensures Output(old(sender.FocusValue()), received, bytes)
    ensures Requests(old(sender.FocusValue()), received, sender.transport.activeState.hostActive, asks)
    ensures sender.FocusValue() == From(old(sender.FocusValue()), FocusTrace(received), |received|)
    ensures sender.uinput.written == old(sender.uinput.written) + Flat(bytes)
    ensures sender.transport.requests == OfferEach(old(sender.transport.requests), Flat(asks))
  {
    ghost var b := BeforeOf(sender);
    bytes, asks := [], [];
    var i := 0;
    while i < |received|
      invariant 0 <= i <= |received| && |bytes| == i
      invariant Reached(sender, b, received, bytes, asks)
    {
      bytes, asks := SendNext(sender, b, received, i, bytes, asks);
      i := i + 1;
    }
  }

  // --- Totals of a list of events -----------------------------------------------------------

  ghost function DeltasX(ss: seq<Scrolled>): seq<real> {
    if ss == [] then [] else [ss[0].deltaX] + DeltasX(ss[1..])
  }

  ghost function DeltasY(ss: seq<Scrolled>): seq<real> {
    if ss == [] then [] else [ss[0].deltaY] + DeltasY(ss[1..])
  }

  // What a reader of the device adds up for one relative axis.
  ghost function AxisTotal(es: seq<InputEvent>, code: nat): int {
    if es == [] then 0
    else (if es[0].kind == EV_REL && es[0].code == code then es[0].value else 0) + AxisTotal(es[1..], code)
  }

  lemma {:induction false} AxisTotalConcat(es: seq<InputEvent>, fs: seq<InputEvent>, code: nat)
    ensures AxisTotal(es + fs, code) == AxisTotal(es, code) + AxisTotal(fs, code)
  {
    if es == [] {
      assert es + fs == fs;
    } else {
      AxisTotalConcat(es[1..], fs, code);
      assert (es + fs)[1..] == es[1..] + fs;
    }
  }

  // The value an axis gets from one send.
  ghost function AxisValue(x: Scrolled, code: nat): int {
    if code == REL_WHEEL_HI_RES then HiRes(x.deltaY)
    else if code == REL_HWHEEL_HI_RES then HiRes(x.deltaX)
    else if code == REL_WHEEL then Clicks(HiRes(x.deltaY))
    else if code == REL_HWHEEL then Clicks(HiRes(x.deltaX))
    else 0
  }

  lemma OptionalTotal(sec: int, usec: int, own: nat, value: int, code: nat)
    ensures AxisTotal(Optional(sec, usec, own, value), code) == if own == code then value else 0
  {
  }

  lemma IntendedTotal(x: Scrolled, code: nat)
    ensures AxisTotal(IntendedBy(x), code) == AxisValue(x, code)
  {
    var y, h := HiRes(x.deltaY), HiRes(x.deltaX);
    var a := Optional(x.sec, x.usec, REL_WHEEL_HI_RES, y);
    var b := Optional(x.sec, x.usec, REL_HWHEEL_HI_RES, h);
    var c := Optional(x.sec, x.usec, REL_WHEEL, Clicks(y));
    var d := Optional(x.sec, x.usec, REL_HWHEEL, Clicks(h));
    var syn := [InputEvent(x.sec, x.usec, EV_SYN, SYN_REPORT, 0)];
    AxisTotalConcat(a, b, code);
    AxisTotalConcat(a + b, c, code);
    AxisTotalConcat(a + b + c, d, code);
    AxisTotalConcat(a + b + c + d, syn, code);
    OptionalTotal(x.sec, x.usec, REL_WHEEL_HI_RES, y, code);
    OptionalTotal(x.sec, x.usec, REL_HWHEEL_HI_RES, h, code);
    OptionalTotal(x.sec, x.usec, REL_WHEEL, Clicks(y), code);
    OptionalTotal(x.sec, x.usec, REL_HWHEEL, Clicks(h), code);
    assert syn[1..] == [];
  }

  ghost function SumAxis(ss: seq<Scrolled>, code: nat): int {
    if ss == [] then 0 else AxisValue(ss[0], code) + SumAxis(ss[1..], code)
  }

  lemma {:induction false} SumAxisConcat(ss: seq<Scrolled>, ts: seq<Scrolled>, code: nat)
    ensures SumAxis(ss + ts, code) == SumAxis(ss, code) + SumAxis(ts, code)
  {
    if ss == [] {
      assert ss + ts == ts;
    } else {
      SumAxisConcat(ss[1..], ts, code);
      assert (ss + ts)[1..] == ss[1..] + ts;
    }
  }

  lemma {:induction false} SumAxisIs(ss: seq<Scrolled>)
    ensures SumAxis(ss, REL_WHEEL_HI_RES) == SumHiRes(DeltasY(ss))
    ensures SumAxis(ss, REL_HWHEEL_HI_RES) == SumHiRes(DeltasX(ss))
    ensures SumAxis(ss, REL_WHEEL) == SumClicks(DeltasY(ss))
    ensures SumAxis(ss, REL_HWHEEL) == SumClicks(DeltasX(ss))
  {
    if ss != [] {
      SumAxisIs(ss[1..]);
      assert DeltasY(ss)[1..] == DeltasY(ss[1..]) && DeltasX(ss)[1..] == DeltasX(ss[1..]);
    }
  }

  // --- Lists act by act ---------------------------------------------------------------------

  lemma {:induction false} FlatEncoded(parts: seq<seq<InputEvent>>, bytes: seq<seq<byte>>)
    requires |parts| == |bytes| && forall i :: 0 <= i < |parts| ==> EncodeAll(parts[i]) == bytes[i]
    ensures EncodeAll(Flat(parts)) == Flat(bytes)
  {
    if parts != [] {
      var n := |parts| - 1;
      FlatEncoded(parts[..n], bytes[..n]);
      EncodeAllConcat(Flat(parts[..n]), parts[n]);
    }
  }

  lemma {:induction false} FlatTotal(parts: seq<seq<InputEvent>>, ss: seq<seq<Scrolled>>, code: nat)
    requires |parts| == |ss| && forall i :: 0 <= i < |parts| ==> AxisTotal(parts[i], code) == SumAxis(ss[i], code)
    ensures AxisTotal(Flat(parts), code) == SumAxis(Flat(ss), code)
  {
    if parts != [] {
      var n := |parts| - 1;
      FlatTotal(parts[..n], ss[..n], code);
      AxisTotalConcat(Flat(parts[..n]), parts[n], code);
      SumAxisConcat(Flat(ss[..n]), ss[n], code);
    }
  }

  lemma {:induction false} FlatKept(parts: seq<seq<InputEvent>>, others: seq<seq<InputEvent>>)
    requires |parts| == |others| && forall i :: 0 <= i < |parts| ==> Kept(parts[i]) == others[i]
    ensures Kept(Flat(parts)) == Flat(others)
  {
    if parts != [] {
      var n := |parts| - 1;
      FlatKept(parts[..n], others[..n]);
      KeptConcat(Flat(parts[..n]), parts[n]);
    }
  }

  lemma {:induction false} KeptConcat(es: seq<InputEvent>, fs: seq<InputEvent>)
    ensures Kept(es + fs) == Kept(es) + Kept(fs)
  {
    if fs == [] {
      assert es + fs == es;
    } else {
      var n := |fs| - 1;
      KeptConcat(es, fs[..n]);
      assert (es + fs)[..|es + fs| - 1] == es + fs[..n];
    }
  }

  ghost predicate AllValid(es: seq<InputEvent>) {
    forall e :: e in es ==> e.Valid()
  }

  lemma {:induction false} FlatValid(parts: seq<seq<InputEvent>>)
    requires forall i :: 0 <= i < |parts| ==> AllValid(parts[i])
    ensures AllValid(Flat(parts))
  {
    if parts != [] {
      FlatValid(parts[..|parts| - 1]);
    }
  }

  // --- What one act puts on the device ------------------------------------------------------

  // A relative event on one of the four wheel axes, by the numbers of the kernel's interface.
  predicate OfScroll(e: InputEvent) {
    e.kind == 2 && (e.code == 6 || e.code == 8 || e.code == 11 || e.code == 12)
  }

  // `pass` says whether a received event is let pass.
  ghost function EventsOf(a: DeviceAct, pass: bool): seq<InputEvent>
    requires Fits(a)
  {
    match a
    case Local(record, _) => if OfScroll(Decode(record)) then [] else [Decode(record)]
    case Received(x, _) => if pass then IntendedBy(x) else []
  }

  ghost function InjectedOf(a: DeviceAct, pass: bool): seq<Scrolled> {
    if a.Received? && pass then [a.scroll] else []
  }

  function Report(x: Scrolled): InputEvent {
    InputEvent(x.sec, x.usec, EV_SYN, SYN_REPORT, 0)
  }

  ghost function OthersOf(a: DeviceAct, pass: bool): seq<InputEvent>
    requires Fits(a)
  {
    match a
    case Local(record, _) => if OfScroll(Decode(record)) then [] else [Decode(record)]
    case Received(x, _) => if pass then [Report(x)] else []
  }

  ghost predicate Stamped(a: DeviceAct) {
    a.Received? ==> TimeOfDay(a.scroll.sec, a.scroll.usec)
  }

  predicate WheelCode(code: nat) {
    code in {REL_WHEEL, REL_HWHEEL, REL_WHEEL_HI_RES, REL_HWHEEL_HI_RES}
  }

  lemma BytesOfOne(f: FocusState, a: DeviceAct, pass: bool)
    requires Bounded(f) && Fits(a)
    requires a.Received? ==> (pass <==> Judge(f, a.at).1 == Inject)
    ensures Wrote(f, a) == EncodeAll(EventsOf(a, pass))
  {
    if a.Local? && !OfScroll(Decode(a.record)) {
      EncodeDecode(a.record);
      EncodeSnoc([], Decode(a.record), a.record);
      assert [] + [Decode(a.record)] == [Decode(a.record)];
    }
  }

  lemma ValidOfOne(a: DeviceAct, pass: bool)
    requires Fits(a) && Stamped(a)
    ensures AllValid(EventsOf(a, pass))
  {
    if a.Local? {
      DecodedIsValid(a.record);
    }
  }

  lemma TotalOfOne(a: DeviceAct, pass: bool, code: nat)
    requires Fits(a) && WheelCode(code)
    ensures AxisTotal(EventsOf(a, pass), code) == SumAxis(InjectedOf(a, pass), code)
  {
    match a
    case Local(record, _) =>
      assert EventsOf(a, pass) != [] ==> EventsOf(a, pass)[1..] == [];
    case Received(x, _) =>
      IntendedTotal(x, code);
      assert [x][1..] == [];
  }

  lemma {:induction false} KeptWheels(es: seq<InputEvent>)
    requires forall e :: e in es ==> IsWheel(e)
    ensures Kept(es) == []
  {
    if es != [] {
      KeptWheels(es[..|es| - 1]);
    }
  }

  lemma KeptOfOne(a: DeviceAct, pass: bool)
    requires Fits(a)
    ensures Kept(EventsOf(a, pass)) == OthersOf(a, pass)
  {
    match a
    case Local(record, _) =>
      KeptSnoc([], Decode(record));
      assert [] + [Decode(record)] == [Decode(record)];
    case Received(x, _) =>
      var es := IntendedBy(x);
      var n := |es| - 1;
      assert es[n] == Report(x) && forall e :: e in es[..n] ==> IsWheel(e);
      KeptWheels(es[..n]);
  }

  // --- End to end ---------------------------------------------------------------------------

  // Which acts of a trace the specification of the blur machine does not suppress.
  ghost function Unsuppressed(trace: seq<Act>): (pass: seq<bool>)
    requires TimeOrdered(trace)
    ensures |pass| == |trace|
    ensures forall i :: 0 <= i < |trace| ==> (pass[i] <==> !Suppressed(trace, i))
  {
    seq(|trace|, i requires 0 <= i < |trace| => !Suppressed(trace, i))
  }

  // The events on the device, act by act.
  ghost function Parts(acts: seq<DeviceAct>, pass: seq<bool>): (parts: seq<seq<InputEvent>>)
    requires |pass| == |acts| && AllFit(acts)
    ensures |parts| == |acts| && forall i :: 0 <= i < |acts| ==> parts[i] == EventsOf(acts[i], pass[i])
  {
    seq(|acts|, i requires 0 <= i < |acts| => EventsOf(acts[i], pass[i]))
  }

  // The received events that pass, act by act.
  ghost function Injected(acts: seq<DeviceAct>, pass: seq<bool>): (ss: seq<seq<Scrolled>>)
    requires |pass| == |acts|
    ensures |ss| == |acts| && forall i :: 0 <= i < |acts| ==> ss[i] == InjectedOf(acts[i], pass[i])
  {
    seq(|acts|, i requires 0 <= i < |acts| => InjectedOf(acts[i], pass[i]))
  }

  // The local records other than wheel events and one report for each received event that
  // passes, act by act.
  ghost function Others(acts: seq<DeviceAct>, pass: seq<bool>): (others: seq<seq<InputEvent>>)
    requires |pass| == |acts| && AllFit(acts)
    ensures |others| == |acts| && forall i :: 0 <= i < |acts| ==> others[i] == OthersOf(acts[i], pass[i])
  {
    seq(|acts|, i requires 0 <= i < |acts| => OthersOf(acts[i], pass[i]))
  }

  lemma PartsAreWritten(acts: seq<DeviceAct>, pass: seq<bool>, bytes: seq<seq<byte>>)
    requires AllFit(acts) && TimeOrdered(FocusTrace(acts)) && pass == Unsuppressed(FocusTrace(acts))
    requires |bytes| == |acts| && Output(FocusState(0, 0), acts, bytes)
    ensures Flat(bytes) == EncodeAll(Flat(Parts(acts, pass)))
  {
    var trace, parts := FocusTrace(acts), Parts(acts, pass);
    forall i | 0 <= i < |acts| ensures EncodeAll(parts[i]) == bytes[i] {
      var f := From(FocusState(0, 0), trace, i);
      assert WroteAt(FocusState(0, 0), acts, bytes, i);
      assert f == After(trace, i) && trace[i] == FocusAct(acts[i]);
      BytesOfOne(f, acts[i], pass[i]);
    }
    FlatEncoded(parts, bytes);
  }

  lemma PartsAreRead(acts: seq<DeviceAct>, pass: seq<bool>)
    requires AllFit(acts) && |pass| == |acts| && forall i :: 0 <= i < |acts| ==> Stamped(acts[i])
    ensures var es, ss := Flat(Parts(acts, pass)), Flat(Injected(acts, pass));
            && AllValid(es)
            && (forall code :: WheelCode(code) ==> AxisTotal(es, code) == SumAxis(ss, code))
            && Kept(es) == Flat(Others(acts, pass))
  {
    var parts, ss, others := Parts(acts, pass), Injected(acts, pass), Others(acts, pass);
    forall i | 0 <= i < |acts| ensures AllValid(parts[i]) {
      ValidOfOne(acts[i], pass[i]);
    }
    FlatValid(parts);
    forall code | WheelCode(code) ensures AxisTotal(Flat(parts), code) == SumAxis(Flat(ss), code) {
      forall i | 0 <= i < |acts| ensures AxisTotal(parts[i], code) == SumAxis(ss[i], code) {
        TotalOfOne(acts[i], pass[i], code);
      }
      FlatTotal(parts, ss, code);
    }
    forall i | 0 <= i < |acts| ensures Kept(parts[i]) == others[i] {
      KeptOfOne(acts[i], pass[i]);
    }
    FlatKept(parts, others);
  }

  /** End to end on a destination. Whatever the order in which its threads run, a reader that
      decodes the bytes on the virtual device gets, in order, the intended events of every
      received scroll that is not suppressed and every local record that is no wheel event, and
      nothing else. So each axis adds up to the totals of `ScrollMath` over exactly the scrolls
      that are not suppressed, and what is not a wheel event survives in its order. */
  lemma DeviceTotals(acts: seq<DeviceAct>, bytes: seq<seq<byte>>)
    requires AllFit(acts) && TimeOrdered(FocusTrace(acts))
    requires |bytes| == |acts| && Output(FocusState(0, 0), acts, bytes)
    requires forall i :: 0 <= i < |acts| ==> Stamped(acts[i])
    ensures var pass := Unsuppressed(FocusTrace(acts));
            var es := DecodeAll(Flat(bytes));
            var ss := Flat(Injected(acts, pass));
            && es == Flat(Parts(acts, pass))
            && AxisTotal(es, 11) == SumHiRes(DeltasY(ss)) && AxisTotal(es, 12) == SumHiRes(DeltasX(ss))
            && AxisTotal(es, 8) == SumClicks(DeltasY(ss)) && AxisTotal(es, 6) == SumClicks(DeltasX(ss))
            && Kept(es) == Flat(Others(acts, pass))
  {
    var pass := Unsuppressed(FocusTrace(acts));
    PartsAreWritten(acts, pass, bytes);
    PartsAreRead(acts, pass);
    DecodeAllEncodeAll(Flat(Parts(acts, pass)));
    SumAxisIs(Flat(Injected(acts, pass)));
  }

  // The records of the local devices, decoded, in order.
  ghost function LocalOf(a: DeviceAct): seq<InputEvent>
    requires Fits(a)
  {
    match a
    case Local(record, _) => [Decode(record)]
    case Received(_, _) => []
  }

  ghost function Locals(acts: seq<DeviceAct>): (locals: seq<seq<InputEvent>>)
    requires AllFit(acts)
    ensures |locals| == |acts| && forall i :: 0 <= i < |acts| ==> locals[i] == LocalOf(acts[i])
  {
    seq(|acts|, i requires 0 <= i < |acts| => LocalOf(acts[i]))
  }

  lemma {:induction false} OnlyConcat(es: seq<InputEvent>, fs: seq<InputEvent>, kind: nat, code: nat)
    ensures Only(es + fs, kind, code) == Only(es, kind, code) + Only(fs, kind, code)
  {
    if fs == [] {
      assert es + fs == es;
    } else {
      var n := |fs| - 1;
      OnlyConcat(es, fs[..n], kind, code);
      assert (es + fs)[..|es + fs| - 1] == es + fs[..n];
    }
  }

  lemma {:induction false} FlatOnly(parts: seq<seq<InputEvent>>, locals: seq<seq<InputEvent>>, kind: nat, code: nat)
    requires |parts| == |locals|
    requires forall i :: 0 <= i < |parts| ==> Only(parts[i], kind, code) == Only(locals[i], kind, code)
    ensures Only(Flat(parts), kind, code) == Only(Flat(locals), kind, code)
  {
    if parts != [] {
      var n := |parts| - 1;
      FlatOnly(parts[..n], locals[..n], kind, code);
      OnlyConcat(Flat(parts[..n]), parts[n], kind, code);
      OnlyConcat(Flat(locals[..n]), locals[n], kind, code);
    }
  }

  lemma {:induction false} OnlyNone(es: seq<InputEvent>, kind: nat, code: nat)
    requires forall e :: e in es ==> e.kind != kind || e.code != code
    ensures Only(es, kind, code) == []
  {
    if es != [] {
      OnlyNone(es[..|es| - 1], kind, code);
    }
  }

  lemma OnlyOfOne(a: DeviceAct, pass: bool, kind: nat, code: nat)
    requires Fits(a) && !(kind == 0 && code == 0)
    requires !(kind == 2 && (code == 6 || code == 8 || code == 11 || code == 12))
    ensures Only(EventsOf(a, pass), kind, code) == Only(LocalOf(a), kind, code)
  {
    match a
    case Local(record, _) =>
      if OfScroll(Decode(record)) {
        OnlyNone([Decode(record)], kind, code);
      }
    case Received(x, _) =>
      OnlyNone(IntendedBy(x), kind, code);
  }

  /** What the local devices report on anything but the wheel, such as pointer motion or a key,
      comes through complete, unchanged and in order, and nothing is added to it. */
  lemma LocalEventsSurvive(acts: seq<DeviceAct>, bytes: seq<seq<byte>>, kind: nat, code: nat)
    requires AllFit(acts) && TimeOrdered(FocusTrace(acts))
    requires |bytes| == |acts| && Output(FocusState(0, 0), acts, bytes)
    requires forall i :: 0 <= i < |acts| ==> Stamped(acts[i])
    requires !(kind == 0 && code == 0)
    requires !(kind == 2 && (code == 6 || code == 8 || code == 11 || code == 12))
    ensures Only(DecodeAll(Flat(bytes)), kind, code) == Only(Flat(Locals(acts)), kind, code)
  {
    var pass := Unsuppressed(FocusTrace(acts));
    DeviceTotals(acts, bytes);
    var parts, locals := Parts(acts, pass), Locals(acts);
    forall i | 0 <= i < |acts| ensures Only(parts[i], kind, code) == Only(locals[i], kind, code) {
      OnlyOfOne(acts[i], pass[i], kind, code);
    }
    FlatOnly(parts, locals, kind, code);
  }

  // --- The request queue --------------------------------------------------------------------

  /** A send asks for deactivation if and only if its host is active and the send ends a run of
      stale sends that began more than 50 ms earlier; no other send asks for anything. */
  lemma SendAsksIff(acts: seq<DeviceAct>, active: bool, asks: seq<seq<RequestEvent>>, i: nat)
    requires AllFit(acts) && TimeOrdered(FocusTrace(acts)) && |asks| == |acts|
    requires Requests(FocusState(0, 0), acts, active, asks) && i < |acts| && acts[i].Received?
    ensures var trace := FocusTrace(acts);
            asks[i] ==
            if active && exists j :: 0 <= j <= i && StaleFrom(trace, j, i + 1) && trace[i].at - trace[j].at > 50
            then [Deactivate] else []
  {
    var trace := FocusTrace(acts);
    assert AskedAt(FocusState(0, 0), acts, active, asks, i);
    assert trace[i] == Send(acts[i].at) && From(FocusState(0, 0), trace, i) == After(trace, i);
    SuppressedIff(trace, i);
  }

  // How many sends of a trace are suppressed, and how many acts are records of the local device.
  ghost function SuppressedSends(trace: seq<Act>, n: nat): nat
    requires n <= |trace| && TimeOrdered(trace)
  {
    if n == 0 then 0
    else SuppressedSends(trace, n - 1) + if trace[n - 1].Send? && Suppressed(trace, n - 1) then 1 else 0
  }

  ghost function Records(acts: seq<DeviceAct>, n: nat): nat
    requires n <= |acts|
  {
    if n == 0 then 0 else Records(acts, n - 1) + if acts[n - 1].Local? then 1 else 0
  }

  ghost function Times(r: RequestEvent, k: nat): seq<RequestEvent> {
    seq(k, _ => r)
  }

  lemma AskedIs(acts: seq<DeviceAct>, active: bool, asks: seq<seq<RequestEvent>>, i: nat)
    requires AllFit(acts) && TimeOrdered(FocusTrace(acts)) && |asks| == |acts|
    requires Requests(FocusState(0, 0), acts, active, asks) && i < |acts|
    ensures active ==>
              asks[i] == if FocusTrace(acts)[i].Send? && Suppressed(FocusTrace(acts), i) then [Deactivate] else []
    ensures !active ==> asks[i] == if acts[i].Local? then [Activate] else []
  {
    assert AskedAt(FocusState(0, 0), acts, active, asks, i);
    assert FocusTrace(acts)[i] == FocusAct(acts[i]);
  }

  lemma {:induction false} AllAsked(acts: seq<DeviceAct>, active: bool, asks: seq<seq<RequestEvent>>, n: nat)
    requires AllFit(acts) && TimeOrdered(FocusTrace(acts)) && |asks| == |acts|
    requires Requests(FocusState(0, 0), acts, active, asks) && n <= |acts|
    ensures active ==> Flat(asks[..n]) == Times(Deactivate, SuppressedSends(FocusTrace(acts), n))
    ensures !active ==> Flat(asks[..n]) == Times(Activate, Records(acts, n))
  {
    if n > 0 {
      AllAsked(acts, active, asks, n - 1);
      AskedIs(acts, active, asks, n - 1);
      assert asks[..n][..n - 1] == asks[..n - 1];
    }
  }

  lemma {:induction false} OfferTimes(q: seq<RequestEvent>, r: RequestEvent, k: nat)
    ensures var room := if |q| >= 32 then 0 else 32 - |q|;
            OfferEach(q, Times(r, k)) == q + Times(r, if k <= room then k else room)
  {
    if k > 0 {
      OfferTimes(q, r, k - 1);
      assert Times(r, k)[..k - 1] == Times(r, k - 1);
    }
  }

  /** Over any trace of a host's threads: while it is active they ask for deactivation once for
      each suppressed send and for nothing else, while it is not they ask for activation once for
      each local record and for nothing else, as far as the queue of 32 has room. */
  lemma RequestsOfTrace(acts: seq<DeviceAct>, active: bool, asks: seq<seq<RequestEvent>>, q: seq<RequestEvent>)
    requires AllFit(acts) && TimeOrdered(FocusTrace(acts)) && |asks| == |acts|
    requires Requests(FocusState(0, 0), acts, active, asks)
    ensures var k := if active then SuppressedSends(FocusTrace(acts), |acts|) else Records(acts, |acts|);
            var room := if |q| >= 32 then 0 else 32 - |q|;
            OfferEach(q, Flat(asks)) == q + Times(if active then Deactivate else Activate, if k <= room then k else room)
  {
    AllAsked(acts, active, asks, |acts|);
    assert asks[..|acts|] == asks;
    if active {
      OfferTimes(q, Deactivate, SuppressedSends(FocusTrace(acts), |acts|));
    } else {
      OfferTimes(q, Activate, Records(acts, |acts|));
    }
  }
}
