/** The active-peer state of one host and the handlers that change it
    (`src/transport/active.rs`, `src/transport/server.rs`, `src/daemon/daemon.rs`). */
module Active {
  import opened Wrappers
  import opened Settings

  // The clock is a `u64`: `fetch_add` wraps at this modulus.
  const CLOCK_MODULUS: nat := 0x1_0000_0000_0000_0000

  datatype ActiveEvent = ActiveEvent(peer: Key, clock: nat)
  datatype ActivateEvent = ActivateEvent(peer: Key, state: bool)

  // An `active_state` call in flight to the host at address `to`.
  datatype Broadcast = Broadcast(to: Address, event: ActiveEvent)

  datatype Refusal = NotSource | UnknownPeer | NotDestination

  // The value of an `ActiveState` object.
  datatype Node = Node(peer: Option<Key>, clock: nat, hostActive: bool)

  const FRESH: Node := Node(None, 0, false)

  function SetActive(host: Key, e: ActiveEvent): Node {
    Node(Some(e.peer), e.clock, e.peer == host)
  }

  function IncrementAndSet(host: Key, n: Node, peer: Key): Node {
    Node(Some(peer), (n.clock + 1) % CLOCK_MODULUS, peer == host)
  }

  // The `active_state` handler of a destination: clock 0 resets, a clock that is not
  // newer than the held one is ignored, anything else is taken over.
  function HandleActiveState(host: Key, n: Node, e: ActiveEvent): Node {
    if e.clock == 0 then FRESH
    else if e.clock <= n.clock then n
    else SetActive(host, e)
  }

  // The skip guards of `run_active_handler`: whether a request for `activate` goes out.
  predicate ShouldSend(host: Key, n: Node, activate: bool) {
    if activate then n.peer != Some(host)
    else n.peer == None || n.peer == Some(host)
  }

  function FindPeer(peers: seq<PeerConfig>, key: Key): (r: Option<PeerConfig>)
    ensures r.Some? ==> r.value in peers && r.value.publicKey == key
    ensures r.None? ==> forall p :: p in peers ==> p.publicKey != key
  {
    if peers == [] then None
    else if peers[0].publicKey == key then Some(peers[0])
    else FindPeer(peers[1..], key)
  }

  // Who becomes active when the source grants `req`, or why it refuses.
  function Grant(c: Config, req: ActivateEvent): Result<Key, Refusal> {
    if !c.scrollSource then Err(NotSource) else
    match FindPeer(c.peers, req.peer)
    case None => Err(UnknownPeer)
    case Some(p) =>
      if !p.scrollDestination then Err(NotDestination)
      else Ok(if req.state then p.publicKey else c.publicKey)
  }

  // The calls spawned for one new log entry, in the order of the peer list.
  function Broadcasts(peers: seq<PeerConfig>, e: ActiveEvent): seq<Broadcast> {
    if peers == [] then []
    else
      (if peers[0].scrollDestination && peers[0].publicKey != e.peer
       then [Broadcast(peers[0].address, e)] else [])
      + Broadcasts(peers[1..], e)
  }

  // The clock-0 calls a source sends when it starts.
  function Resets(peers: seq<PeerConfig>, host: Key): seq<Broadcast> {
    if peers == [] then []
    else
      (if peers[0].scrollDestination then [Broadcast(peers[0].address, ActiveEvent(host, 0))] else [])
      + Resets(peers[1..], host)
  }

  /** `ActiveState`: the peer, the clock and the flag the scroll threads read. */
  class ActiveState {
    const hostPublicKey: Key
    var activePeer: Option<Key>
    var clock: nat
    var hostActive: bool
    var lastScroll: nat  // milliseconds; 0 means none
    var lastBlur: nat    // milliseconds; 0 means none

    ghost function Value(): Node
      reads this`activePeer, this`clock, this`hostActive
    {
      Node(activePeer, clock, hostActive)
    }

    constructor (hostPublicKey: Key)
      ensures this.hostPublicKey == hostPublicKey && Value() == FRESH
      ensures lastScroll == 0 && lastBlur == 0
    {
      this.hostPublicKey := hostPublicKey;
      activePeer, clock, hostActive := None, 0, false;
      lastScroll, lastBlur := 0, 0;
    }

    method Set(e: ActiveEvent)
      modifies this`activePeer, this`clock, this`hostActive
      ensures Value() == SetActive(hostPublicKey, e)
    {
      var isHost := e.peer == hostPublicKey;
      activePeer := Some(e.peer);
      clock := e.clock;
      hostActive := isHost;
    }

    method Increment(peer: Key) returns (newClock: nat)
      modifies this`activePeer, this`clock, this`hostActive
      ensures Value() == IncrementAndSet(hostPublicKey, old(Value()), peer)
      ensures newClock == clock
      ensures old(clock) < 0xffff_ffff_ffff_ffff ==> clock == old(clock) + 1
      ensures old(clock) == 0xffff_ffff_ffff_ffff ==> clock == 0
      ensures activePeer == Some(peer) && (hostActive <==> peer == hostPublicKey)
    {
      var isHost := peer == hostPublicKey;
      newClock := (clock + 1) % CLOCK_MODULUS;
      clock := newClock;
      activePeer := Some(peer);
      hostActive := isHost;
    }

    method Reset()
      modifies this`activePeer, this`clock, this`hostActive
      ensures Value() == FRESH
      ensures activePeer == None && clock == 0 && !hostActive
    {
      activePeer := None;
      clock := 0;
      hostActive := false;
    }

    // First half of one iteration of `run_active_handler`: nothing is awaited yet. `hasSource`
    // says whether a scroll source is among the configured peers.
    method BeginRequest(hasSource: bool, activate: bool) returns (req: Option<ActivateEvent>)
      ensures req == if hasSource && ShouldSend(hostPublicKey, Value(), activate)
                     then Some(ActivateEvent(hostPublicKey, activate)) else None
      // the same case by case
      ensures activePeer.None? ==> req == if hasSource then Some(ActivateEvent(hostPublicKey, activate)) else None
      ensures activePeer == Some(hostPublicKey) ==>
                req == if hasSource && !activate then Some(ActivateEvent(hostPublicKey, false)) else None
      ensures activePeer.Some? && activePeer.value != hostPublicKey ==>
                req == if hasSource && activate then Some(ActivateEvent(hostPublicKey, true)) else None
    {
      if !hasSource {
        return None;
      }
      if activate {
        if activePeer == Some(hostPublicKey) {
          return None;
        }
      } else {
        if activePeer.Some? && activePeer.value != hostPublicKey {
          return None;
        }
      }
      return Some(ActivateEvent(hostPublicKey, activate));
    }

    // Second half: the reply is applied without looking at the clock.
    method FinishRequest(reply: Result<ActiveEvent, Refusal>)
      modifies this`activePeer, this`clock, this`hostActive
      ensures Value() == if reply.Ok? then SetActive(hostPublicKey, reply.value) else old(Value())
    {
      match reply
      case Ok(e) => Set(e);
      case Err(_) =>
    }
  }

  /** The gRPC service of one host, as far as it touches the active peer. `spawned` collects
      the calls handed to the runtime. */
  class TransportServer {
    const config: Config
    const activeState: ActiveState
    var spawned: seq<Broadcast>

    constructor (config: Config, activeState: ActiveState)
      ensures this.config == config && this.activeState == activeState && spawned == []
    {
      this.config, this.activeState, this.spawned := config, activeState, [];
    }

    method ActivateRequest(req: ActivateEvent) returns (reply: Result<ActiveEvent, Refusal>)
      requires activeState.hostPublicKey == config.publicKey
      modifies this, activeState`activePeer, activeState`clock, activeState`hostActive
      ensures match Grant(config, req)
              case Err(why) =>
                && reply == Err(why)
                && spawned == old(spawned)
                && activeState.Value() == old(activeState.Value())
              case Ok(peer) =>
                && activeState.Value() == IncrementAndSet(config.publicKey, old(activeState.Value()), peer)
                && reply == Ok(ActiveEvent(peer, activeState.clock))
                && spawned == old(spawned) + Broadcasts(config.peers, ActiveEvent(peer, activeState.clock))
    {
      if !config.scrollSource {
        return Err(NotSource);
      }
      var peer := FindPeer(config.peers, req.peer);
      if peer.None? {
        return Err(UnknownPeer);
      }
      if !peer.value.scrollDestination {
        return Err(NotDestination);
      }
      var newPeer := if req.state then peer.value.publicKey else config.publicKey;
      var newClock := activeState.Increment(newPeer);
      var event := ActiveEvent(newPeer, newClock);
      var i := 0;
      while i < |config.peers|
        invariant 0 <= i <= |config.peers|
        invariant spawned + Broadcasts(config.peers[i..], event) == old(spawned) + Broadcasts(config.peers, event)
        invariant activeState.Value() == IncrementAndSet(config.publicKey, old(activeState.Value()), newPeer)
      {
        var dest := config.peers[i];
        if dest.scrollDestination && dest.publicKey != newPeer {
          spawned := spawned + [Broadcast(dest.address, event)];
        }
        assert config.peers[i..][1..] == config.peers[i + 1..];
        i := i + 1;
      }
      return Ok(event);
    }

    method ActiveStateCall(event: ActiveEvent)
      modifies activeState`activePeer, activeState`clock, activeState`hostActive
      ensures activeState.Value() == HandleActiveState(activeState.hostPublicKey, old(activeState.Value()), event)
    {
      if event.clock == 0 {
        activeState.Reset();
        return;
      }
      if event.clock <= activeState.clock {
        return;
      }
      activeState.Set(event);
    }

    // Start-up of a scroll source.
    method SendResets()
      modifies this`spawned
      ensures spawned == old(spawned) + Resets(config.peers, config.publicKey)
    {
      var i := 0;
      while i < |config.peers|
        invariant 0 <= i <= |config.peers|
        invariant spawned + Resets(config.peers[i..], config.publicKey)
                  == old(spawned) + Resets(config.peers, config.publicKey)
      {
        var dest := config.peers[i];
        if dest.scrollDestination {
          spawned := spawned + [Broadcast(dest.address, ActiveEvent(config.publicKey, 0))];
        }
        assert config.peers[i..][1..] == config.peers[i + 1..];
        i := i + 1;
      }
    }
  }

  // --- What one call promises ---------------------------------------------------------------

  // A log entry reaches clock 0, and so acts as a reset, exactly when the counter wraps.
  lemma EntryClockIsZeroIffWrapped(host: Key, n: Node, peer: Key)
    requires n.clock < CLOCK_MODULUS
    ensures IncrementAndSet(host, n, peer).clock == 0 <==> n.clock == CLOCK_MODULUS - 1
    ensures n.clock < CLOCK_MODULUS - 1 ==> IncrementAndSet(host, n, peer).clock == n.clock + 1
  {
  }

  // How often the call list for one entry contains a given call.
  lemma {:induction false} BroadcastCount(peers: seq<PeerConfig>, e: ActiveEvent, m: Broadcast)
    requires DistinctAddresses(peers)
    ensures multiset(Broadcasts(peers, e))[m] <= 1
    ensures m in multiset(Broadcasts(peers, e)) <==>
            && m.event == e
            && exists p :: p in peers && p.scrollDestination && p.publicKey != e.peer && p.address == m.to
  {
    if peers == [] {
    } else {
      var head := if peers[0].scrollDestination && peers[0].publicKey != e.peer
                  then [Broadcast(peers[0].address, e)] else [];
      var tail := Broadcasts(peers[1..], e);
      BroadcastCount(peers[1..], e, m);
      assert Broadcasts(peers, e) == head + tail;
      assert multiset(head + tail) == multiset(head) + multiset(tail);
      assert forall p :: p in peers <==> p == peers[0] || p in peers[1..];
      assert !(m in head && m in tail);
    }
  }

  /** The calls a source starts with: exactly one for each scroll destination, at its address, all
      with clock 0 and the source's own key. */
  lemma {:induction false} ResetsAreResets(peers: seq<PeerConfig>, host: Key, m: Broadcast)
    ensures m in Resets(peers, host) <==>
            && m.event == ActiveEvent(host, 0)
            && exists p :: p in peers && p.scrollDestination && p.address == m.to
    ensures DistinctAddresses(peers) ==> multiset(Resets(peers, host))[m] <= 1
  {
    if peers != [] {
      var head := if peers[0].scrollDestination then [Broadcast(peers[0].address, ActiveEvent(host, 0))] else [];
      var tail := Resets(peers[1..], host);
      ResetsAreResets(peers[1..], host, m);
      assert Resets(peers, host) == head + tail;
      assert multiset(head + tail) == multiset(head) + multiset(tail);
      assert forall p :: p in peers <==> p == peers[0] || p in peers[1..];
    }
  }

  // How many times a granted request tells the host behind `p` about its log entry: the calls
  // spawned for it, plus the reply when `p` is the requester.
  ghost function Notices(c: Config, req: ActivateEvent, e: ActiveEvent, p: PeerConfig): nat {
    multiset(Broadcasts(c.peers, e))[Broadcast(p.address, e)] + if p.publicKey == req.peer then 1 else 0
  }

  /** Every granted activation reaches each configured destination exactly once; a granted
      deactivation reaches each of them once by broadcast and the requester once more by reply.
      Nobody else is told. */
  lemma DeliveryCoverage(c: Config, req: ActivateEvent, clock: nat, p: PeerConfig)
    requires DistinctKeys(c.peers) && DistinctAddresses(c.peers)
    requires forall q :: q in c.peers ==> q.publicKey != c.publicKey
    requires Grant(c, req).Ok?
    requires p in c.peers
    ensures var e := ActiveEvent(Grant(c, req).value, clock);
            Notices(c, req, e, p) ==
            if !p.scrollDestination then 0
            else if req.state then 1
            else if p.publicKey == req.peer then 2 else 1
    ensures var e := ActiveEvent(Grant(c, req).value, clock);
            forall m :: m in Broadcasts(c.peers, e) ==>
              m.event == e && exists q :: q in c.peers && q.scrollDestination && q.address == m.to
  {
    var e := ActiveEvent(Grant(c, req).value, clock);
    BroadcastCount(c.peers, e, Broadcast(p.address, e));
    forall m | m in Broadcasts(c.peers, e)
      ensures m.event == e && exists q :: q in c.peers && q.scrollDestination && q.address == m.to
    {
      BroadcastCount(c.peers, e, m);
    }
    SameEntry(c.peers);
    var requester := FindPeer(c.peers, req.peer).value;
    assert requester.scrollDestination && requester.publicKey == req.peer;
  }

  // Distinct fields identify a peer.
  lemma SameEntry(peers: seq<PeerConfig>)
    ensures DistinctAddresses(peers) ==>
              forall p, q :: p in peers && q in peers && p.address == q.address ==> p == q
    ensures DistinctKeys(peers) ==>
              forall p, q :: p in peers && q in peers && p.publicKey == q.publicKey ==> p == q
  {
  }

  // The peer a granted request makes active is the source itself or a configured destination.
  ghost predicate Eligible(c: Config, k: Key) {
    k == c.publicKey || exists p :: p in c.peers && p.scrollDestination && p.publicKey == k
  }

  lemma GrantIsEligible(c: Config, req: ActivateEvent)
    requires Grant(c, req).Ok?
    ensures Eligible(c, Grant(c, req).value)
    ensures req.state ==> Grant(c, req).value == req.peer
    ensures Eligible(c, req.peer)
  {
  }

  /** Exactly which requests a source grants, whom they make active, and why it refuses others,
      where keys tell the configured peers apart. */
  lemma GrantIff(c: Config, req: ActivateEvent)
    requires DistinctKeys(c.peers)
    ensures Grant(c, req).Ok? <==>
            c.scrollSource && exists p :: p in c.peers && p.publicKey == req.peer && p.scrollDestination
    ensures Grant(c, req).Ok? ==> Grant(c, req).value == if req.state then req.peer else c.publicKey
    ensures Grant(c, req) == Err(NotSource) <==> !c.scrollSource
    ensures Grant(c, req) == Err(UnknownPeer) <==> c.scrollSource && forall p :: p in c.peers ==> p.publicKey != req.peer
    ensures Grant(c, req) == Err(NotDestination) <==>
            c.scrollSource && exists p :: p in c.peers && p.publicKey == req.peer && !p.scrollDestination
  {
    SameEntry(c.peers);
  }

  // --- Last writer wins ---------------------------------------------------------------------

  // `e` is an entry of the log: entry c - 1 is the peer chosen at clock c.
  ghost predicate FromLog(log: seq<Key>, e: ActiveEvent) {
    1 <= e.clock <= |log| && e.peer == log[e.clock - 1]
  }

  // A host agrees with the log when it knows nothing or holds exactly one entry of it.
  ghost predicate Agrees(host: Key, n: Node, log: seq<Key>) {
    || n == FRESH
    || (n.peer.Some? && FromLog(log, ActiveEvent(n.peer.value, n.clock))
        && n.hostActive == (n.peer.value == host))
  }

  ghost function HandleAll(host: Key, n: Node, es: seq<ActiveEvent>): Node
    decreases |es|
  {
    if es == [] then n else HandleAll(host, HandleActiveState(host, n, es[0]), es[1..])
  }

  // The node that holds entry `clock` of the log.
  ghost function At(host: Key, log: seq<Key>, clock: nat): Node
    requires clock <= |log|
  {
    if clock == 0 then FRESH else SetActive(host, ActiveEvent(log[clock - 1], clock))
  }

  ghost predicate IsMax(c: nat, start: nat, es: seq<ActiveEvent>) {
    && start <= c
    && (forall e :: e in es ==> e.clock <= c)
    && (c == start || exists e :: e in es && e.clock == c)
  }

  /** However the entries of one log arrive, a host ends at the newest one it has seen. */
  lemma {:induction false} HandleAllIsMax(host: Key, n: Node, log: seq<Key>, es: seq<ActiveEvent>)
    requires Agrees(host, n, log)
    requires forall e :: e in es ==> FromLog(log, e)
    ensures var r := HandleAll(host, n, es);
            IsMax(r.clock, n.clock, es) && r.clock <= |log| && r == At(host, log, r.clock)
    decreases |es|
  {
    if es == [] {
    } else {
      var n' := HandleActiveState(host, n, es[0]);
      assert es[0] in es;
      assert forall e :: e in es[1..] ==> e in es;
      HandleAllIsMax(host, n', log, es[1..]);
      var r := HandleAll(host, n', es[1..]);
      assert forall e :: e in es ==> e == es[0] || e in es[1..];
      if r.clock != n.clock {
        if r.clock == n'.clock {
          assert es[0].clock == r.clock;
        } else {
          var e :| e in es[1..] && e.clock == r.clock;
          assert e in es;
        }
      }
    }
  }

  /** Order and repetition of the arrivals do not matter: two hosts that handled the same
      entries hold the same state. */
  lemma LastWriterWins(host: Key, n: Node, log: seq<Key>, es: seq<ActiveEvent>, fs: seq<ActiveEvent>)
    requires Agrees(host, n, log)
    requires forall e :: e in es ==> FromLog(log, e)
    requires forall e :: e in es <==> e in fs
    ensures HandleAll(host, n, es) == HandleAll(host, n, fs)
  {
    HandleAllIsMax(host, n, log, es);
    HandleAllIsMax(host, n, log, fs);
  }
}
