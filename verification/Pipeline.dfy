/** How captured scroll events reach the peers' streams: a bounded main queue, a dispatcher, and
    for each peer a bounded queue and a connection that is made again when it breaks
    (`src/transport/scroll.rs`, `src/transport/transport.rs:147-153`). An event is represented
    by its number: event i is the i-th one captured. */
module Pipeline {
  import opened Wrappers
  import opened Settings
  import opened Active

  const CHANNEL_CAPACITY: nat := 32

  // One peer: its queue, the event its connection task is forwarding, and the stream channel of
  // the present connection. `wire`, `lost`, `full` and `disconnects` record what has happened:
  // the events handed to the wire, those that went down with a connection, how many the full
  // queue refused, and how many connections broke.
  datatype Peer = Peer(
    key: Key,
    queue: seq<nat>,
    held: Option<nat>,
    stream: seq<nat>,
    connected: bool,
    wire: seq<nat>,
    lost: seq<nat>,
    full: nat,
    disconnects: nat)

  // `activeAt` records which peer was active when an event was dispatched to somebody.
  datatype Sys = Sys(
    captured: nat,
    main: seq<nat>,
    active: Option<Key>,
    peers: seq<Peer>,
    mainFull: nat,
    noActive: nat,
    noPeer: nat,
    activeAt: map<nat, Key>)

  function NewPeer(key: Key): Peer {
    Peer(key, [], None, [], false, [], [], 0, 0)
  }

  // --- What each part does ------------------------------------------------------------------

  // `send_scroll`: the newest event is dropped when the main queue is full.
  function Capture(s: Sys): Sys {
    if |s.main| < CHANNEL_CAPACITY
    then s.(captured := s.captured + 1, main := s.main + [s.captured])
    else s.(captured := s.captured + 1, mainFull := s.mainFull + 1)
  }

  function Offer(p: Peer, e: nat): Peer {
    if |p.queue| < CHANNEL_CAPACITY then p.(queue := p.queue + [e]) else p.(full := p.full + 1)
  }

  function OfferAll(peers: seq<Peer>, key: Key, e: nat): seq<Peer> {
    if peers == [] then []
    else [if peers[0].key == key then Offer(peers[0], e) else peers[0]] + OfferAll(peers[1..], key, e)
  }

  function Matches(peers: seq<Peer>, key: Key): bool {
    exists i :: 0 <= i < |peers| && peers[i].key == key
  }

  // The dispatcher takes the oldest event of the main queue.
  function Dispatch(s: Sys): Sys
    requires s.main != []
  {
    var e, rest := s.main[0], s.(main := s.main[1..]);
    match s.active
    case None => rest.(noActive := s.noActive + 1)
    case Some(key) =>
      if Matches(s.peers, key)
      then rest.(peers := OfferAll(s.peers, key, e), activeAt := s.activeAt[e := key])
      else rest.(noPeer := s.noPeer + 1)
  }

  function HeldSeq(p: Peer): seq<nat> {
    if p.held.Some? then [p.held.value] else []
  }

  function Pull(p: Peer): Peer
    requires p.queue != []
  {
    p.(held := Some(p.queue[0]), queue := p.queue[1..])
  }

  function Push(p: Peer): Peer
    requires p.held.Some?
  {
    p.(stream := p.stream + [p.held.value], held := None)
  }

  function Ship(p: Peer): Peer
    requires p.stream != []
  {
    p.(wire := p.wire + [p.stream[0]], stream := p.stream[1..])
  }

  // The call has ended: its stream channel and the event that was being forwarded are gone.
  function Disconnect(p: Peer): Peer {
    p.(connected := false, stream := [], held := None,
       lost := p.lost + p.stream + HeldSeq(p), disconnects := p.disconnects + 1)
  }

  /** One peer of the dispatcher: the bounded queue to its connection task, the event that task is
      forwarding and the stream channel of the present call. The ghost fields record what has
      become of the events. */
  class PeerConnection {
    const publicKey: Key
    var queue: seq<nat>
    var held: Option<nat>
    var stream: seq<nat>
    var connected: bool
    ghost var wire: seq<nat>
    ghost var lost: seq<nat>
    ghost var full: nat
    ghost var disconnects: nat

    ghost function Value(): Peer
      reads this
    {
      Peer(publicKey, queue, held, stream, connected, wire, lost, full, disconnects)
    }

    constructor (publicKey: Key)
      ensures Value() == NewPeer(publicKey)
    {
      this.publicKey := publicKey;
      queue, held, stream, connected := [], None, [], false;
      wire, lost, full, disconnects := [], [], 0, 0;
    }

    // `tx.try_send` of the dispatcher.
    method TrySend(event: nat) returns (sent: bool)
      modifies this
      ensures Value() == Offer(old(Value()), event)
      ensures sent <==> |old(queue)| < CHANNEL_CAPACITY
    {
      if |queue| >= CHANNEL_CAPACITY {
        full := full + 1;
        return false;
      }
      queue := queue + [event];
      return true;
    }

    // A new call with an empty stream channel.
    method Connect()
      requires !connected && stream == [] && held == None
      modifies this
      ensures Value() == PeerAfter(old(Value()), ConnectStep(0))
      ensures connected
    {
      stream := [];
      connected := true;
    }

    // `rx.recv` of the connection task.
    method Receive()
      requires connected && held == None && queue != []
      modifies this
      ensures Value() == Pull(old(Value()))
      ensures held == Some(old(queue)[0]) && queue == old(queue)[1..]
    {
      held := Some(queue[0]);
      queue := queue[1..];
    }

    // `stream_tx.send(event)`: it fails when the receiver has gone with the call, and the task
    // then leaves the inner loop.
    method Forward(receiverGone: bool) returns (sent: bool)
      requires connected && held.Some? && (receiverGone || |stream| < CHANNEL_CAPACITY)
      modifies this
      ensures sent <==> !receiverGone
      ensures Value() == if sent then Push(old(Value())) else Disconnect(old(Value()))
      ensures held == None && stream == if sent then old(stream) + [old(held).value] else []
    {
      if receiverGone {
        CallEnds();
        return false;
      }
      stream := stream + [held.value];
      held := None;
      return true;
    }

    // The stream channel and the event being forwarded go down with the call.
    method CallEnds()
      requires connected
      modifies this
      ensures Value() == Disconnect(old(Value()))
      ensures !connected && stream == [] && held == None && queue == old(queue)
    {
      lost := lost + stream + if held.Some? then [held.value] else [];
      disconnects := disconnects + 1;
      stream, held, connected := [], None, false;
    }

    // The call takes the next event of its stream.
    method Ship() returns (event: nat)
      requires connected && stream != []
      modifies this
      ensures Value() == PeerAfter(old(Value()), ShipStep(0))
      ensures event == old(stream)[0] && wire == old(wire) + [event] && stream == old(stream)[1..]
    {
      event := stream[0];
      wire := wire + [event];
      stream := stream[1..];
    }
  }

  ghost function Values(peers: seq<PeerConnection>): (vs: seq<Peer>)
    reads peers
    ensures |vs| == |peers| && forall i :: 0 <= i < |peers| ==> vs[i] == peers[i].Value()
  {
    seq(|peers|, i requires 0 <= i < |peers| reads peers => peers[i].Value())
  }

  ghost predicate Distinct(peers: seq<PeerConnection>) {
    forall i, j :: 0 <= i < j < |peers| ==> peers[i] != peers[j]
  }

  // The loop of the dispatcher over all peers.
  method Route(peers: seq<PeerConnection>, activePeer: Key, event: nat)
    requires Distinct(peers)
    modifies peers
    ensures Values(peers) == OfferAll(old(Values(peers)), activePeer, event)
  {
    ghost var before := Values(peers);
    OfferAllFacts(before, activePeer, event);
    ghost var after := OfferAll(before, activePeer, event);
    var i := 0;
    while i < |peers|
      invariant 0 <= i <= |peers|
      invariant forall j :: 0 <= j < |peers| ==> peers[j].Value() == if j < i then after[j] else before[j]
    {
      if peers[i].publicKey == activePeer {
        var _ := peers[i].TrySend(event);
      }
      i := i + 1;
    }
    assert Values(peers) == after;
  }

  lemma {:induction false} OfferAllToNobody(peers: seq<Peer>, key: Key, e: nat)
    requires !Matches(peers, key)
    ensures OfferAll(peers, key, e) == peers
  {
    OfferAllFacts(peers, key, e);
  }

  /** The main queue and the dispatcher of one host. */
  class ScrollTransport {
    const activeState: ActiveState
    const peers: seq<PeerConnection>
    var main: seq<nat>
    ghost var captured: nat
    ghost var mainFull: nat
    ghost var noActive: nat
    ghost var noPeer: nat
    ghost var activeAt: map<nat, Key>

    ghost function Value(): Sys
      reads this, peers, activeState`activePeer
    {
      Sys(captured, main, activeState.activePeer, Values(peers), mainFull, noActive, noPeer, activeAt)
    }

    constructor (activeState: ActiveState, peers: seq<PeerConnection>)
      ensures this.activeState == activeState && this.peers == peers
      ensures Value() == Sys(0, [], activeState.activePeer, Values(peers), 0, 0, 0, map[])
    {
      this.activeState, this.peers, main := activeState, peers, [];
      captured, mainFull, noActive, noPeer, activeAt := 0, 0, 0, 0, map[];
    }

    // The next captured event goes to the main queue, or is dropped when that is full.
    method SendScroll(event: nat) returns (sent: bool)
      requires event == captured
      modifies this
      ensures Value() == Capture(old(Value()))
      ensures sent <==> |old(main)| < CHANNEL_CAPACITY
    {
      captured := captured + 1;
      if |main| >= CHANNEL_CAPACITY {
        mainFull := mainFull + 1;
        return false;
      }
      main := main + [event];
      return true;
    }

    // What the dispatcher does with an event when somebody is active.
    method Offers(activePeer: Key, event: nat)
      requires Distinct(peers)
      modifies this`activeAt, this`noPeer, peers
      ensures Values(peers) == OfferAll(old(Values(peers)), activePeer, event)
      ensures Matches(old(Values(peers)), activePeer) ==>
                activeAt == old(activeAt)[event := activePeer] && noPeer == old(noPeer)
      ensures !Matches(old(Values(peers)), activePeer) ==>
                activeAt == old(activeAt) && noPeer == old(noPeer) + 1
    {
      if Matches(Values(peers), activePeer) {
        activeAt := activeAt[event := activePeer];
      } else {
        noPeer := noPeer + 1;
      }
      Route(peers, activePeer, event);
    }

    // One iteration of the dispatcher task.
    method DispatchNext()
      requires main != []
      requires Distinct(peers)
      modifies this, peers
      ensures Value() == Dispatch(old(Value()))
    {
      ghost var before := Value();
      var event := main[0];
      main := main[1..];
      if activeState.activePeer.None? {
        noActive := noActive + 1;
        return;
      }
      assert Values(peers) == before.peers;
      var activePeer := activeState.activePeer.value;
      Offers(activePeer, event);
      if !Matches(before.peers, activePeer) {
        OfferAllToNobody(before.peers, activePeer, event);
      }
    }
  }

  function Initial(keys: seq<Key>): Sys {
    Sys(0, [], None, seq(|keys|, i requires 0 <= i < |keys| => NewPeer(keys[i])), 0, 0, 0, map[])
  }

  // --- Runs ---------------------------------------------------------------------------------

  datatype Step =
    | CaptureStep
    | DispatchStep
    | ActiveChanges(active: Option<Key>)
    | ConnectStep(i: nat)
    | PullStep(i: nat)
    | PushStep(i: nat)
    | ShipStep(i: nat)
    | DisconnectStep(i: nat)

  ghost predicate Enabled(s: Sys, step: Step) {
    match step
    case CaptureStep => true
    case DispatchStep => s.main != []
    case ActiveChanges(_) => true
    case ConnectStep(i) => i < |s.peers| && !s.peers[i].connected
    case PullStep(i) => i < |s.peers| && s.peers[i].connected && s.peers[i].held.None? && s.peers[i].queue != []
    case PushStep(i) =>
      i < |s.peers| && s.peers[i].connected && s.peers[i].held.Some? && |s.peers[i].stream| < CHANNEL_CAPACITY
    case ShipStep(i) => i < |s.peers| && s.peers[i].connected && s.peers[i].stream != []
    case DisconnectStep(i) => i < |s.peers| && s.peers[i].connected
  }

  // The step of a connection task, on its own peer.
  ghost function PeerAfter(p: Peer, step: Step): Peer
    requires step.PullStep? ==> p.queue != []
    requires step.PushStep? ==> p.held.Some?
    requires step.ShipStep? ==> p.stream != []
  {
    match step
    case ConnectStep(_) => p.(connected := true)
    case PullStep(_) => Pull(p)
    case PushStep(_) => Push(p)
    case ShipStep(_) => Ship(p)
    case DisconnectStep(_) => Disconnect(p)
    case _ => p
  }

  ghost predicate OnPeer(step: Step) {
    !step.CaptureStep? && !step.DispatchStep? && !step.ActiveChanges?
  }

  ghost function Next(s: Sys, step: Step): Sys
    requires Enabled(s, step)
  {
    match step
    case CaptureStep => Capture(s)
    case DispatchStep => Dispatch(s)
    case ActiveChanges(a) => s.(active := a)
    case _ => s.(peers := s.peers[step.i := PeerAfter(s.peers[step.i], step)])
  }

  ghost predicate Takes(s: Sys, step: Step, s': Sys) {
    Enabled(s, step) && s' == Next(s, step)
  }

  ghost predicate DistinctPeers(keys: seq<Key>) {
    forall i, j :: 0 <= i < j < |keys| ==> keys[i] != keys[j]
  }

  ghost predicate StepAt(run: seq<Sys>, steps: seq<Step>, i: nat)
    requires |run| == |steps| + 1 && i < |steps|
  {
    Takes(run[i], steps[i], run[i + 1])
  }

  ghost predicate IsRun(keys: seq<Key>, run: seq<Sys>, steps: seq<Step>) {
    && |run| == |steps| + 1
    && run[0] == Initial(keys)
    && forall i :: 0 <= i < |steps| ==> StepAt(run, steps, i)
  }

  // --- Conservation -------------------------------------------------------------------------

  // Everything one peer has been offered: what it refused, what waits, what went out, what sank.
  ghost function Weight(p: Peer): nat {
    p.full + |p.queue| + |HeldSeq(p)| + |p.stream| + |p.wire| + |p.lost|
  }

  ghost function Total(peers: seq<Peer>): nat {
    if peers == [] then 0 else Weight(peers[0]) + Total(peers[1..])
  }

  ghost function Accounted(s: Sys): nat {
    |s.main| + s.mainFull + s.noActive + s.noPeer + Total(s.peers)
  }

  ghost predicate KeysOf(peers: seq<Peer>, keys: seq<Key>) {
    |peers| == |keys| && forall i :: 0 <= i < |keys| ==> peers[i].key == keys[i]
  }

  lemma {:induction false} TotalUpdate(peers: seq<Peer>, i: nat, p: Peer)
    requires i < |peers|
    ensures Total(peers[i := p]) == Total(peers) - Weight(peers[i]) + Weight(p)
  {
    if i == 0 {
      assert peers[0 := p][1..] == peers[1..];
    } else {
      TotalUpdate(peers[1..], i - 1, p);
      assert peers[i := p][1..] == peers[1..][i - 1 := p];
    }
  }

  lemma {:induction false} OfferAllFacts(peers: seq<Peer>, key: Key, e: nat)
    ensures |OfferAll(peers, key, e)| == |peers|
    ensures forall i :: 0 <= i < |peers| ==>
              OfferAll(peers, key, e)[i] == if peers[i].key == key then Offer(peers[i], e) else peers[i]
  {
    if peers != [] {
      OfferAllFacts(peers[1..], key, e);
    }
  }

  lemma {:induction false} OfferAllTotal(peers: seq<Peer>, key: Key, e: nat)
    requires forall i, j :: 0 <= i < j < |peers| ==> peers[i].key != peers[j].key
    ensures Total(OfferAll(peers, key, e)) == Total(peers) + if Matches(peers, key) then 1 else 0
  {
    if peers != [] {
      OfferAllTotal(peers[1..], key, e);
      if peers[0].key == key {
        assert !Matches(peers[1..], key);
      } else if Matches(peers, key) {
        var i :| 0 <= i < |peers| && peers[i].key == key;
        assert peers[1..][i - 1].key == key;
      }
    }
  }

  // A step of a connection task moves events about, and loses track of none.
  lemma ConservationOnPeer(s: Sys, step: Step, s': Sys)
    requires Takes(s, step, s') && OnPeer(step)
    ensures |s'.peers| == |s.peers| && forall i :: 0 <= i < |s.peers| ==> s'.peers[i].key == s.peers[i].key
    ensures Total(s'.peers) == Total(s.peers)
  {
    var p := s.peers[step.i];
    assert Weight(PeerAfter(p, step)) == Weight(p);
    TotalUpdate(s.peers, step.i, PeerAfter(p, step));
  }

  lemma ConservationDispatch(s: Sys, keys: seq<Key>)
    requires s.main != [] && KeysOf(s.peers, keys) && DistinctPeers(keys)
    ensures KeysOf(Dispatch(s).peers, keys)
    ensures Accounted(Dispatch(s)) == Accounted(s)
  {
    if s.active.Some? {
      OfferAllFacts(s.peers, s.active.value, s.main[0]);
      OfferAllTotal(s.peers, s.active.value, s.main[0]);
    }
  }

  lemma ConservationStep(s: Sys, step: Step, s': Sys, keys: seq<Key>)
    requires Takes(s, step, s') && KeysOf(s.peers, keys) && DistinctPeers(keys)
    ensures KeysOf(s'.peers, keys)
    ensures s'.captured - Accounted(s') == s.captured - Accounted(s)
  {
    if OnPeer(step) {
      ConservationOnPeer(s, step, s');
    } else if step.DispatchStep? {
      ConservationDispatch(s, keys);
    }
  }

  lemma {:induction false} InitialIsEmpty(peers: seq<Peer>)
    requires forall i :: 0 <= i < |peers| ==> peers[i] == NewPeer(peers[i].key)
    ensures Total(peers) == 0
  {
    if peers != [] {
      InitialIsEmpty(peers[1..]);
    }
  }

  /** Every captured event is accounted for exactly once at every moment: waiting in the main
      queue, dropped there, dropped by the dispatcher for want of an active peer or of a matching
      one, refused by a full peer queue, waiting for a connection, handed to the wire, or lost
      with a connection. */
  lemma {:induction false} Conservation(keys: seq<Key>, run: seq<Sys>, steps: seq<Step>, n: nat)
    requires IsRun(keys, run, steps) && DistinctPeers(keys) && n < |run|
    ensures KeysOf(run[n].peers, keys)
    ensures run[n].captured == Accounted(run[n])
  {
    if n == 0 {
      InitialIsEmpty(run[0].peers);
    } else {
      Conservation(keys, run, steps, n - 1);
      assert StepAt(run, steps, n - 1);
      ConservationStep(run[n - 1], steps[n - 1], run[n], keys);
    }
  }

  // --- What is dropped, and why -------------------------------------------------------------

  /** What a dispatch does, peer by peer: the oldest event of the main queue goes to the end of the
      queue of every peer with the active key that has fewer than 32 events waiting; nothing else
      about any peer changes, and an event is counted as dropped for a cause only if that is so. */
  lemma DispatchIs(s: Sys, s': Sys)
    requires Takes(s, DispatchStep, s')
    ensures s.main != [] && s'.main == s.main[1..] && s'.active == s.active
    ensures |s'.peers| == |s.peers|
    ensures forall i :: 0 <= i < |s.peers| ==>
              s'.peers[i] ==
                if s.active != Some(s.peers[i].key) then s.peers[i]
                else if |s.peers[i].queue| < 32 then s.peers[i].(queue := s.peers[i].queue + [s.main[0]])
                else s.peers[i].(full := s.peers[i].full + 1)
    ensures s'.captured == s.captured && s'.mainFull == s.mainFull
    ensures s'.noActive == s.noActive + if s.active == None then 1 else 0
    ensures s'.noPeer == s.noPeer +
              if s.active != None && forall i :: 0 <= i < |s.peers| ==> s.active != Some(s.peers[i].key) then 1 else 0
  {
    if s.active.Some? {
      OfferAllFacts(s.peers, s.active.value, s.main[0]);
    }
  }

  /** What a capture does: a main queue of fewer than 32 events takes the new one at its end, a
      full one refuses it. */
  lemma CaptureIs(s: Sys, s': Sys)
    requires Takes(s, CaptureStep, s')
    ensures s'.captured == s.captured + 1 && s'.peers == s.peers && s'.active == s.active
    ensures |s.main| < 32 ==> s'.main == s.main + [s.captured] && s'.mainFull == s.mainFull
    ensures |s.main| >= 32 ==> s'.main == s.main && s'.mainFull == s.mainFull + 1
    ensures s'.noActive == s.noActive && s'.noPeer == s.noPeer
  {
  }

  datatype Cause = MainFull | NobodyActive | NoSuchPeer | PeerFull(i: nat)

  // The step drops an event for this cause.
  ghost predicate Drops(s: Sys, step: Step, cause: Cause) {
    match cause
    case MainFull => step == CaptureStep && |s.main| >= 32
    case NobodyActive => step == DispatchStep && s.active == None
    case NoSuchPeer =>
      step == DispatchStep && s.active != None && forall i :: 0 <= i < |s.peers| ==> s.active != Some(s.peers[i].key)
    case PeerFull(i) =>
      && step == DispatchStep && i < |s.peers| && s.active == Some(s.peers[i].key)
      && |s.peers[i].queue| >= 32
  }

  ghost function Dropped(run: seq<Sys>, steps: seq<Step>, n: nat, cause: Cause): nat
    requires |run| == |steps| + 1 && n <= |steps|
  {
    if n == 0 then 0
    else Dropped(run, steps, n - 1, cause) + if Drops(run[n - 1], steps[n - 1], cause) then 1 else 0
  }

  lemma DropStep(s: Sys, step: Step, s': Sys)
    requires Takes(s, step, s')
    ensures s'.mainFull == s.mainFull + if Drops(s, step, MainFull) then 1 else 0
    ensures s'.noActive == s.noActive + if Drops(s, step, NobodyActive) then 1 else 0
    ensures s'.noPeer == s.noPeer + if Drops(s, step, NoSuchPeer) then 1 else 0
    ensures |s'.peers| == |s.peers|
    ensures forall i :: 0 <= i < |s.peers| ==>
              s'.peers[i].full == s.peers[i].full + if Drops(s, step, PeerFull(i)) then 1 else 0
  {
    if step.DispatchStep? {
      DispatchIs(s, s');
    } else if step.CaptureStep? {
      CaptureIs(s, s');
    }
  }

  /** Each named drop counts exactly its cause: over every run `mainFull` the captures that found 32
      events in the main queue, `noActive` the dispatches while nobody was active, `noPeer` those
      while the active key was no peer's, and a peer's `full` those for it that found 32 events in
      its queue. */
  lemma {:induction false} NamedDrops(keys: seq<Key>, run: seq<Sys>, steps: seq<Step>, n: nat)
    requires IsRun(keys, run, steps) && n < |run|
    ensures run[n].mainFull == Dropped(run, steps, n, MainFull)
    ensures run[n].noActive == Dropped(run, steps, n, NobodyActive)
    ensures run[n].noPeer == Dropped(run, steps, n, NoSuchPeer)
    ensures |run[n].peers| == |keys|
    ensures forall i :: 0 <= i < |keys| ==> run[n].peers[i].full == Dropped(run, steps, n, PeerFull(i))
  {
    if n > 0 {
      NamedDrops(keys, run, steps, n - 1);
      assert StepAt(run, steps, n - 1);
      DropStep(run[n - 1], steps[n - 1], run[n]);
    }
  }

  // --- Order, routing, loss -----------------------------------------------------------------

  ghost predicate Increasing(es: seq<nat>) {
    forall i, j :: 0 <= i < j < |es| ==> es[i] < es[j]
  }

  // A peer's events from the wire back to its queue.
  ghost function Line(p: Peer): seq<nat> {
    p.wire + p.stream + HeldSeq(p) + p.queue
  }

  ghost predicate PeerInv(s: Sys, p: Peer) {
    && Increasing(Line(p))
    && (forall e :: e in Line(p) || e in p.lost ==> e in s.activeAt && s.activeAt[e] == p.key)
    && (forall e :: e in p.lost ==> e !in Line(p))
    && |p.queue| <= CHANNEL_CAPACITY && |p.stream| <= CHANNEL_CAPACITY
    && |p.lost| <= (CHANNEL_CAPACITY + 1) * p.disconnects
    && (!p.connected ==> p.stream == [] && p.held.None?)
  }

  ghost predicate Inv(s: Sys) {
    && Increasing(s.main) && |s.main| <= CHANNEL_CAPACITY
    && (forall m :: m in s.main ==> m < s.captured)
    && (forall e :: e in s.activeAt ==> e < s.captured && forall m :: m in s.main ==> e < m)
    && (forall i :: 0 <= i < |s.peers| ==> PeerInv(s, s.peers[i]))
  }

  lemma IncreasingSnoc(es: seq<nat>, e: nat)
    requires Increasing(es) && forall x :: x in es ==> x < e
    ensures Increasing(es + [e])
  {
    forall i, j | 0 <= i < j < |es + [e]| ensures (es + [e])[i] < (es + [e])[j] {
      assert (es + [e])[i] == es[i];
      assert es[i] in es;
    }
  }

  lemma IncreasingTail(es: seq<nat>)
    requires es != [] && Increasing(es)
    ensures Increasing(es[1..]) && forall x :: x in es[1..] ==> es[0] < x && x in es
  {
  }

  lemma DropMiddle(a: seq<nat>, b: seq<nat>, c: seq<nat>)
    requires Increasing(a + b + c)
    ensures Increasing(a + c)
    ensures forall e :: e in b ==> e !in a + c
  {
    var all := a + b + c;
    forall i, j | 0 <= i < j < |a + c| ensures (a + c)[i] < (a + c)[j] {
      var i', j' := if i < |a| then i else i + |b|, if j < |a| then j else j + |b|;
      assert (a + c)[i] == all[i'] && (a + c)[j] == all[j'];
    }
    forall e | e in b ensures e !in a + c {
      var k :| 0 <= k < |b| && b[k] == e;
      assert all[|a| + k] == e;
      forall i | 0 <= i < |a + c| ensures (a + c)[i] != e {
        var i' := if i < |a| then i else i + |b|;
        assert (a + c)[i] == all[i'];
      }
    }
  }

  lemma PeerStep(s: Sys, p: Peer, step: Step)
    requires PeerInv(s, p) && OnPeer(step)
    requires step.ConnectStep? ==> !p.connected
    requires !step.ConnectStep? ==> p.connected
    requires step.PullStep? ==> p.held.None? && p.queue != []
    requires step.PushStep? ==> p.held.Some? && |p.stream| < CHANNEL_CAPACITY
    requires step.ShipStep? ==> p.stream != []
    ensures PeerInv(s, PeerAfter(p, step))
  {
    var p' := PeerAfter(p, step);
    if step.DisconnectStep? {
      assert p.wire + (p.stream + HeldSeq(p)) + p.queue == Line(p);
      DropMiddle(p.wire, p.stream + HeldSeq(p), p.queue);
      assert Line(p') == p.wire + p.queue;
      assert |p'.lost| <= |p.lost| + CHANNEL_CAPACITY + 1;
    } else {
      assert Line(p') == Line(p);
    }
  }

  lemma OfferStep(s: Sys, p: Peer, e: nat, s': Sys)
    requires PeerInv(s, p) && s'.activeAt == s.activeAt[e := p.key]
    requires forall x :: x in s.activeAt ==> x < e
    ensures PeerInv(s', Offer(p, e))
  {
    var p' := Offer(p, e);
    assert Line(p') == Line(p) || Line(p') == Line(p) + [e];
    IncreasingSnoc(Line(p), e);
  }

  lemma DispatchKeepsMain(s: Sys)
    requires Inv(s) && s.main != []
    ensures var s' := Dispatch(s);
            && Increasing(s'.main) && |s'.main| <= CHANNEL_CAPACITY
            && (forall m :: m in s'.main ==> m < s'.captured)
            && (forall e :: e in s'.activeAt ==> e < s'.captured && forall m :: m in s'.main ==> e < m)
  {
    var s', e := Dispatch(s), s.main[0];
    IncreasingTail(s.main);
    assert e in s.main;
    assert s'.main == s.main[1..];
    assert forall x :: x in s'.activeAt ==> x in s.activeAt || x == e;
  }

  lemma DispatchKeepsInv(s: Sys)
    requires Inv(s) && s.main != []
    ensures Inv(Dispatch(s))
  {
    var s', e := Dispatch(s), s.main[0];
    DispatchKeepsMain(s);
    if s.active.Some? && Matches(s.peers, s.active.value) {
      assert e in s.main;
      OfferAllFacts(s.peers, s.active.value, e);
      forall i | 0 <= i < |s'.peers| ensures PeerInv(s', s'.peers[i]) {
        if s.peers[i].key == s.active.value {
          OfferStep(s, s.peers[i], e, s');
        } else {
          OtherPeer(s, s.peers[i], e, s');
        }
      }
    } else {
      forall i | 0 <= i < |s'.peers| ensures PeerInv(s', s'.peers[i]) {
        assert PeerInv(s, s.peers[i]);
      }
    }
  }

  lemma OtherPeer(s: Sys, p: Peer, e: nat, s': Sys)
    requires PeerInv(s, p) && e !in s.activeAt
    requires s'.activeAt.Keys == s.activeAt.Keys + {e}
    requires forall x :: x in s.activeAt ==> s'.activeAt[x] == s.activeAt[x]
    ensures PeerInv(s', p)
  {
  }

  lemma InvStep(s: Sys, step: Step, s': Sys)
    requires Inv(s) && Takes(s, step, s')
    ensures Inv(s')
  {
    if OnPeer(step) {
      PeerStep(s, s.peers[step.i], step);
      forall i | 0 <= i < |s'.peers| ensures PeerInv(s', s'.peers[i]) {
      }
    } else if step.DispatchStep? {
      DispatchKeepsInv(s);
    } else {
      if |s.main| < CHANNEL_CAPACITY {
        IncreasingSnoc(s.main, s.captured);
      }
      forall i | 0 <= i < |s'.peers| ensures PeerInv(s', s'.peers[i]) {
        assert PeerInv(s, s.peers[i]);
      }
    }
  }

  lemma {:induction false} RunKeepsInv(keys: seq<Key>, run: seq<Sys>, steps: seq<Step>, n: nat)
    requires IsRun(keys, run, steps) && n < |run|
    ensures Inv(run[n])
  {
    if n > 0 {
      RunKeepsInv(keys, run, steps, n - 1);
      assert StepAt(run, steps, n - 1);
      InvStep(run[n - 1], steps[n - 1], run[n]);
    }
  }

  /** What reaches a peer's wire is a subsequence of the captured events in the order of capture,
      each of them was dispatched while that peer was the active one, and no event ever reaches
      two peers or is both sent and lost. */
  lemma OrderAndRouting(keys: seq<Key>, run: seq<Sys>, steps: seq<Step>, n: nat, i: nat)
    requires IsRun(keys, run, steps) && DistinctPeers(keys) && n < |run| && i < |keys|
    ensures |run[n].peers| == |keys|
    ensures var p := run[n].peers[i];
            && Increasing(p.wire)
            && (forall e :: e in p.wire || e in p.lost ==>
                  e < run[n].captured && e in run[n].activeAt && run[n].activeAt[e] == keys[i])
            && (forall e :: e in p.lost ==> e !in p.wire)
    ensures forall j, e :: 0 <= j < |keys| && j != i && e in run[n].peers[j].wire ==>
              e !in run[n].peers[i].wire && e !in run[n].peers[i].lost
  {
    RunKeepsInv(keys, run, steps, n);
    Conservation(keys, run, steps, n);
    var p := run[n].peers[i];
    assert PeerInv(run[n], p);
    assert Line(p) == p.wire + (p.stream + HeldSeq(p) + p.queue);
    assert forall e :: e in p.wire ==> e in Line(p);
    forall a, b | 0 <= a < b < |p.wire| ensures p.wire[a] < p.wire[b] {
      assert Line(p)[a] == p.wire[a] && Line(p)[b] == p.wire[b];
    }
    forall j, e | 0 <= j < |keys| && j != i && e in run[n].peers[j].wire
      ensures e !in p.wire && e !in p.lost
    {
      assert PeerInv(run[n], run[n].peers[j]);
      assert e in Line(run[n].peers[j]);
    }
  }

  // The peer recorded for an event is the one that was active when the dispatcher took it.
  lemma {:induction false} RecordedWhenActive(keys: seq<Key>, run: seq<Sys>, steps: seq<Step>, n: nat, e: nat)
    requires IsRun(keys, run, steps) && n < |run| && e in run[n].activeAt
    ensures exists m :: 0 <= m < n && DispatchesTo(run[m], steps[m], e, run[n].activeAt[e])
  {
    RunKeepsInv(keys, run, steps, n);
    var m := n - 1;
    assert StepAt(run, steps, m);
    RunKeepsInv(keys, run, steps, m);
    if e in run[m].activeAt && run[m].activeAt[e] == run[n].activeAt[e] {
      RecordedWhenActive(keys, run, steps, m, e);
    } else {
      assert DispatchesTo(run[m], steps[m], e, run[n].activeAt[e]);
    }
  }

  ghost predicate DispatchesTo(s: Sys, step: Step, e: nat, key: Key) {
    step == DispatchStep && s.main != [] && s.main[0] == e && s.active == Some(key)
  }

  /** Wherever an event is on its way to a peer, or was lost on it, the dispatcher took it while
      that peer's key was the active one. So nothing is routed while nobody is active or while
      the active key, such as the source's own, is no configured destination's. */
  lemma RoutedWhileActive(keys: seq<Key>, run: seq<Sys>, steps: seq<Step>, n: nat, i: nat, e: nat)
    requires IsRun(keys, run, steps) && DistinctPeers(keys) && n < |run| && i < |run[n].peers|
    requires e in Line(run[n].peers[i]) || e in run[n].peers[i].lost
    ensures i < |keys| && exists m :: 0 <= m < n && DispatchesTo(run[m], steps[m], e, keys[i])
  {
    Conservation(keys, run, steps, n);
    RunKeepsInv(keys, run, steps, n);
    assert PeerInv(run[n], run[n].peers[i]);
    RecordedWhenActive(keys, run, steps, n, e);
  }

  /** A connection that breaks takes at most 33 events with it, exactly those in its stream channel
      and the one being forwarded; every event in the peer queue survives it. So after any run a
      peer has lost at most 33 events for each broken connection. */
  lemma LossBound(keys: seq<Key>, run: seq<Sys>, steps: seq<Step>, n: nat, i: nat)
    requires IsRun(keys, run, steps) && n < |run| && i < |run[n].peers|
    ensures |run[n].peers[i].lost| <= 33 * run[n].peers[i].disconnects
    ensures n < |steps| && steps[n] == DisconnectStep(i) ==>
              && i < |run[n + 1].peers|
              && var p, p' := run[n].peers[i], run[n + 1].peers[i];
                 && p'.queue == p.queue && p'.wire == p.wire
                 && p'.lost == p.lost + p.stream + HeldSeq(p)
                 && |p'.lost| <= |p.lost| + 33
  {
    RunKeepsInv(keys, run, steps, n);
    assert PeerInv(run[n], run[n].peers[i]);
    if n < |steps| {
      assert StepAt(run, steps, n);
    }
  }

  // --- What waits can be sent ---------------------------------------------------------------

  // A run of the connection task of peer i, which loses no connection.
  ghost predicate IsTaskRun(i: nat, run: seq<Sys>, steps: seq<Step>) {
    && |run| == |steps| + 1
    && forall k :: 0 <= k < |steps| ==> StepAt(run, steps, k) && OfTask(i, steps[k])
  }

  ghost predicate OfTask(i: nat, step: Step) {
    OnPeer(step) && step.i == i && !step.DisconnectStep?
  }

  // What peer i still has to do.
  ghost function Work(p: Peer): nat {
    3 * |p.queue| + 2 * |HeldSeq(p)| + |p.stream| + if p.connected then 0 else 1
  }

  // The next step of the connection task towards the wire.
  ghost function Onwards(p: Peer, i: nat): Step {
    if !p.connected then ConnectStep(i)
    else if p.stream != [] then ShipStep(i)
    else if p.held.Some? then PushStep(i)
    else PullStep(i)
  }

  lemma OnwardsStep(s: Sys, i: nat) returns (s': Sys)
    requires i < |s.peers| && Line(s.peers[i]) != s.peers[i].wire
    ensures Takes(s, Onwards(s.peers[i], i), s') && i < |s'.peers|
    ensures Line(s'.peers[i]) == Line(s.peers[i]) && Work(s'.peers[i]) < Work(s.peers[i])
  {
    var p := s.peers[i];
    if p.connected && p.stream == [] && p.held == None {
      assert p.queue != [] by {
        assert p.wire + [] + [] + [] == p.wire;
      }
    }
    s' := Next(s, Onwards(p, i));
    assert Line(s'.peers[i]) == Line(p);
  }

  /** Nothing that waits for a peer is stuck: from any state its connection task can go on, without
      losing a connection, until every event in the queue, in its hand and in the stream is on the
      wire, behind what was there and in this order. */
  lemma {:induction false} CanDrain(s: Sys, i: nat) returns (run: seq<Sys>, steps: seq<Step>)
    requires i < |s.peers|
    ensures IsTaskRun(i, run, steps) && run[0] == s && i < |run[|steps|].peers|
    ensures var p := s.peers[i];
            run[|steps|].peers[i].wire
              == p.wire + p.stream + (if p.held.Some? then [p.held.value] else []) + p.queue
    decreases Work(s.peers[i])
  {
    if Line(s.peers[i]) == s.peers[i].wire {
      run, steps := [s], [];
    } else {
      var s' := OnwardsStep(s, i);
      run, steps := CanDrain(s', i);
      run, steps := Prepend(s, Onwards(s.peers[i], i), i, run, steps);
    }
  }

  lemma Prepend(s: Sys, step: Step, i: nat, run: seq<Sys>, steps: seq<Step>)
      returns (run': seq<Sys>, steps': seq<Step>)
    requires IsTaskRun(i, run, steps) && Takes(s, step, run[0]) && OfTask(i, step)
    ensures IsTaskRun(i, run', steps') && run'[0] == s && |steps'| == |steps| + 1
    ensures run'[|steps'|] == run[|steps|]
  {
    run', steps' := [s] + run, [step] + steps;
    forall k | 0 <= k < |steps'| ensures StepAt(run', steps', k) && OfTask(i, steps'[k]) {
      if k > 0 {
        assert StepAt(run, steps, k - 1);
      }
    }
  }
}
