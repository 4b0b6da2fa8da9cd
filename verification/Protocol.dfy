/** The active-peer protocol: one scroll source, any number of destinations, and the calls in
    flight between them. Handlers are atomic steps: the runtime has one thread
    (`src/main.rs:42`) and no handler awaits between reading and writing the state. */
module Protocol {
  import opened Settings
  import opened Active

  // The source's configuration, and the key of the host that answers at each address.
  datatype Topology = Topology(source: Config, keyOf: map<Address, Key>)

  // The one call a destination's request loop may be waiting for. `sentAt` remembers the clock
  // the destination held when it sent the request.
  datatype Rpc =
    | Idle
    | Asking(activate: bool, sentAt: nat)
    | Answered(event: ActiveEvent, sentAt: nat)

  datatype Dest = Dest(node: Node, rpc: Rpc)

  // `log` records every peer the source has made active: entry c - 1 was chosen at clock c.
  datatype State = State(
    source: Node,
    log: seq<Key>,
    dests: map<Address, Dest>,
    net: multiset<Broadcast>)

  datatype Step =
    | Send(a: Address, activate: bool)   // the request loop at `a` calls the source
    | Process(a: Address)                // the source answers that call
    | Stray(req: ActivateEvent)          // the source handles a call whose reply reaches nobody
    | Deliver(m: Broadcast)
    | Duplicate(m: Broadcast)            // deliver, but leave the call in flight
    | Lose(m: Broadcast)
    | DeliverReply(a: Address)
    | FailCall(a: Address)               // the call at `a` ends in an error
    | Restart(a: Address)                // the destination at `a` starts afresh

  ghost predicate WellFormed(t: Topology, s: State) {
    s.dests.Keys <= t.keyOf.Keys
  }

  ghost predicate Enabled(t: Topology, s: State, step: Step)
    requires WellFormed(t, s)
  {
    match step
    case Send(a, activate) =>
      a in s.dests && s.dests[a].rpc.Idle? && ShouldSend(t.keyOf[a], s.dests[a].node, activate)
    case Process(a) => a in s.dests && s.dests[a].rpc.Asking?
    case Stray(_) => true
    case Deliver(m) => m in s.net && m.to in s.dests
    case Duplicate(m) => m in s.net && m.to in s.dests
    case Lose(m) => m in s.net
    case DeliverReply(a) => a in s.dests && s.dests[a].rpc.Answered?
    case FailCall(a) => a in s.dests && !s.dests[a].rpc.Idle?
    case Restart(a) => a in s.dests
  }

  // The source handles one `activate_request`.
  ghost function Granted(t: Topology, s: State, req: ActivateEvent): State {
    match Grant(t.source, req)
    case Err(_) => s
    case Ok(peer) =>
      var source := IncrementAndSet(t.source.publicKey, s.source, peer);
      s.(source := source,
         log := s.log + [peer],
         net := s.net + multiset(Broadcasts(t.source.peers, ActiveEvent(peer, source.clock))))
  }

  // What a step does to the host at `a`, apart from what it does to the source.
  ghost function DestAfter(t: Topology, s: State, step: Step, a: Address): Dest
    requires WellFormed(t, s) && a in s.dests && Enabled(t, s, step)
  {
    var d := s.dests[a];
    match step
    case Send(b, activate) => if a == b then d.(rpc := Asking(activate, d.node.clock)) else d
    case Process(b) =>
      if a != b then d else
      (match Grant(t.source, ActivateEvent(t.keyOf[a], d.rpc.activate))
       case Err(_) => d.(rpc := Idle)
       case Ok(peer) =>
         var source := IncrementAndSet(t.source.publicKey, s.source, peer);
         d.(rpc := Answered(ActiveEvent(peer, source.clock), d.rpc.sentAt)))
    case Stray(_) => d
    case Deliver(m) => if m.to == a then d.(node := HandleActiveState(t.keyOf[a], d.node, m.event)) else d
    case Duplicate(m) => if m.to == a then d.(node := HandleActiveState(t.keyOf[a], d.node, m.event)) else d
    case Lose(_) => d
    case DeliverReply(b) => if a == b then Dest(SetActive(t.keyOf[a], d.rpc.event), Idle) else d
    case FailCall(b) => if a == b then d.(rpc := Idle) else d
    case Restart(b) => if a == b then Dest(FRESH, Idle) else d
  }

  // What a step does to everything but the hosts.
  ghost predicate NetAfter(t: Topology, s: State, step: Step, s': State)
    requires WellFormed(t, s) && Enabled(t, s, step)
  {
    match step
    case Process(b) =>
      var g := Granted(t, s, ActivateEvent(t.keyOf[b], s.dests[b].rpc.activate));
      s'.source == g.source && s'.log == g.log && s'.net == g.net
    case Stray(req) =>
      var g := Granted(t, s, req);
      s'.source == g.source && s'.log == g.log && s'.net == g.net
    case Deliver(m) => s'.source == s.source && s'.log == s.log && s'.net == s.net - multiset{m}
    case Lose(m) => s'.source == s.source && s'.log == s.log && s'.net == s.net - multiset{m}
    case _ => s'.source == s.source && s'.log == s.log && s'.net == s.net
  }

  // The step relation.
  ghost predicate Takes(t: Topology, s: State, step: Step, s': State) {
    && WellFormed(t, s)
    && Enabled(t, s, step)
    && NetAfter(t, s, step, s')
    && s'.dests.Keys == s.dests.Keys
    && forall a :: a in s.dests ==> s'.dests[a] == DestAfter(t, s, step, a)
  }

  /** When a host that waits for nothing can ask: for activation if and only if it does not take
      itself for the active one, for deactivation if and only if it takes nobody else for it. */
  lemma AsksIff(t: Topology, s: State, a: Address)
    requires WellFormed(t, s) && a in s.dests && s.dests[a].rpc == Idle
    ensures var peer := s.dests[a].node.peer;
            && ((exists s' :: Takes(t, s, Send(a, true), s')) <==> peer.None? || peer.value != t.keyOf[a])
            && ((exists s' :: Takes(t, s, Send(a, false), s')) <==> peer.None? || peer.value == t.keyOf[a])
  {
    var d := s.dests[a];
    var asking := s.(dests := s.dests[a := d.(rpc := Asking(true, d.node.clock))]);
    var leaving := s.(dests := s.dests[a := d.(rpc := Asking(false, d.node.clock))]);
    assert asking.dests.Keys == s.dests.Keys == leaving.dests.Keys;
    assert d.node.peer.None? || d.node.peer.value != t.keyOf[a] ==> Takes(t, s, Send(a, true), asking);
    assert d.node.peer.None? || d.node.peer.value == t.keyOf[a] ==> Takes(t, s, Send(a, false), leaving);
  }

  ghost predicate StepAt(t: Topology, run: seq<State>, steps: seq<Step>, i: nat)
    requires |run| == |steps| + 1 && i < |steps|
  {
    Takes(t, run[i], steps[i], run[i + 1])
  }

  // A run: state i + 1 follows from state i by step i.
  ghost predicate IsRun(t: Topology, run: seq<State>, steps: seq<Step>) {
    && |run| == |steps| + 1
    && (forall i :: 0 <= i < |run| ==> WellFormed(t, run[i]))
    && (forall i :: 0 <= i < |steps| ==> StepAt(t, run, steps, i))
  }

  // The source has just started: it knows nothing and only its resets may be in flight. The
  // destinations hold whatever an earlier source left them with.
  ghost predicate SourceStart(t: Topology, s: State) {
    && WellFormed(t, s)
    && s.source == FRESH
    && s.log == []
    && (forall m :: m in s.net ==> m.event.clock == 0)
    && (forall a :: a in s.dests ==> s.dests[a].rpc == Idle)
  }

  // Everything has just started.
  ghost predicate ColdStart(t: Topology, s: State) {
    && SourceStart(t, s)
    && (forall a :: a in s.dests ==> s.dests[a].node == FRESH)
  }

  // --- Invariants ---------------------------------------------------------------------------

  // What the source, the network and the replies say comes from the log.
  ghost predicate CoreInv(t: Topology, s: State) {
    && WellFormed(t, s)
    && |s.log| < CLOCK_MODULUS
    && s.source == At(t.source.publicKey, s.log, |s.log|)
    && (forall k :: k in s.log ==> Eligible(t.source, k))
    && (forall m :: m in s.net ==> m.event.clock == 0 || FromLog(s.log, m.event))
    && (forall a :: a in s.dests && s.dests[a].rpc.Answered? ==> FromLog(s.log, s.dests[a].rpc.event))
  }

  ghost predicate DestAgrees(t: Topology, s: State, a: Address)
    requires WellFormed(t, s) && a in s.dests
  {
    Agrees(t.keyOf[a], s.dests[a].node, s.log)
  }

  // A pending request left at a clock the log had already reached, and its answer is newer.
  ghost predicate RpcAdvances(s: State, a: Address)
    requires a in s.dests
  {
    match s.dests[a].rpc
    case Idle => true
    case Asking(_, sentAt) => sentAt <= |s.log|
    case Answered(e, sentAt) => sentAt < e.clock
  }

  ghost predicate Inv(t: Topology, s: State) {
    && CoreInv(t, s)
    && forall a :: a in s.dests ==> DestAgrees(t, s, a) && RpcAdvances(s, a)
  }

  lemma {:induction false} BroadcastsCarry(peers: seq<PeerConfig>, e: ActiveEvent)
    ensures forall m :: m in Broadcasts(peers, e) ==> m.event == e
  {
    if peers != [] {
      BroadcastsCarry(peers[1..], e);
    }
  }

  // The log after one call of the source: as before, or with one entry more.
  lemma GrantedLog(t: Topology, s: State, req: ActivateEvent)
    requires CoreInv(t, s) && |Granted(t, s, req).log| < CLOCK_MODULUS
    ensures var s' := Granted(t, s, req);
            && s'.dests == s.dests
            && |s.log| <= |s'.log| && s'.log[..|s.log|] == s.log
            && s'.source == At(t.source.publicKey, s'.log, |s'.log|)
            && forall k :: k in s'.log ==> Eligible(t.source, k)
    ensures Grant(t.source, req).Ok? ==>
              && Granted(t, s, req).log == s.log + [Grant(t.source, req).value]
              && Granted(t, s, req).source.clock == |s.log| + 1
  {
    if Grant(t.source, req).Ok? {
      var peer := Grant(t.source, req).value;
      GrantIsEligible(t.source, req);
      EntryClockIsZeroIffWrapped(t.source.publicKey, s.source, peer);
      assert Granted(t, s, req).log == s.log + [peer];
    }
  }

  // The calls in flight after it: those from before and the ones that carry the new entry.
  lemma GrantedNet(t: Topology, s: State, req: ActivateEvent)
    requires CoreInv(t, s) && Grant(t.source, req).Ok?
    requires Granted(t, s, req).log == s.log + [Grant(t.source, req).value]
    requires Granted(t, s, req).source.clock == |s.log| + 1
    ensures var e := ActiveEvent(Grant(t.source, req).value, |s.log| + 1);
            && Granted(t, s, req).net == s.net + multiset(Broadcasts(t.source.peers, e))
            && forall m :: m in Broadcasts(t.source.peers, e) ==> m.event == e
    ensures forall m :: m in Granted(t, s, req).net ==> m.event.clock == 0 || FromLog(Granted(t, s, req).log, m.event)
  {
    var e := ActiveEvent(Grant(t.source, req).value, |s.log| + 1);
    var log, calls := Granted(t, s, req).log, Broadcasts(t.source.peers, e);
    BroadcastsCarry(t.source.peers, e);
    assert FromLog(log, e);
    forall m | m in s.net + multiset(calls) ensures m.event.clock == 0 || FromLog(log, m.event) {
      if m in s.net {
        if m.event.clock != 0 {
          LogPrefix(s.log, log, m.event);
        }
      } else {
        assert m in calls;
      }
    }
  }

  // Growing the log by one entry, in one place.
  lemma GrantedStep(t: Topology, s: State, req: ActivateEvent)
    requires CoreInv(t, s) && |Granted(t, s, req).log| < CLOCK_MODULUS
    ensures var s' := Granted(t, s, req);
            && s'.dests == s.dests
            && |s.log| <= |s'.log| && s'.log[..|s.log|] == s.log
            && s'.source == At(t.source.publicKey, s'.log, |s'.log|)
            && (forall k :: k in s'.log ==> Eligible(t.source, k))
            && (forall m :: m in s'.net ==> m.event.clock == 0 || FromLog(s'.log, m.event))
    ensures Grant(t.source, req).Ok? ==>
              var e := ActiveEvent(Grant(t.source, req).value, |s.log| + 1);
              && Granted(t, s, req).log == s.log + [e.peer]
              && Granted(t, s, req).source.clock == e.clock
              && Granted(t, s, req).net == s.net + multiset(Broadcasts(t.source.peers, e))
              && forall m :: m in Broadcasts(t.source.peers, e) ==> m.event == e
  {
    GrantedLog(t, s, req);
    if Grant(t.source, req).Ok? {
      GrantedNet(t, s, req);
    }
  }

  lemma CoreInvStep(t: Topology, s: State, step: Step, s': State)
    requires CoreInv(t, s) && Takes(t, s, step, s') && |s'.log| < CLOCK_MODULUS
    ensures CoreInv(t, s')
    ensures |s.log| <= |s'.log| && s'.log[..|s.log|] == s.log
  {
    NetStep(t, s, step, s');
    forall a | a in s'.dests && s'.dests[a].rpc.Answered? ensures FromLog(s'.log, s'.dests[a].rpc.event) {
      AnswerStep(t, s, step, s', a);
    }
  }

  lemma NetStep(t: Topology, s: State, step: Step, s': State)
    requires CoreInv(t, s) && Takes(t, s, step, s') && |s'.log| < CLOCK_MODULUS
    ensures |s.log| <= |s'.log| && s'.log[..|s.log|] == s.log
    ensures s'.source == At(t.source.publicKey, s'.log, |s'.log|)
    ensures forall k :: k in s'.log ==> Eligible(t.source, k)
    ensures forall m :: m in s'.net ==> m.event.clock == 0 || FromLog(s'.log, m.event)
  {
    if step.Process? {
      GrantedStep(t, s, ActivateEvent(t.keyOf[step.a], s.dests[step.a].rpc.activate));
    } else if step.Stray? {
      GrantedStep(t, s, step.req);
    } else {
      assert s'.net <= s.net;
    }
  }

  lemma AnswerStep(t: Topology, s: State, step: Step, s': State, a: Address)
    requires CoreInv(t, s) && Takes(t, s, step, s') && |s'.log| < CLOCK_MODULUS
    requires a in s.dests
    ensures s'.dests[a].rpc.Answered? ==> FromLog(s'.log, s'.dests[a].rpc.event)
  {
    NetStep(t, s, step, s');
    assert s'.dests[a] == DestAfter(t, s, step, a);
    if s.dests[a].rpc.Answered? {
      LogPrefix(s.log, s'.log, s.dests[a].rpc.event);
    } else if step == Process(a) {
      var req := ActivateEvent(t.keyOf[a], s.dests[a].rpc.activate);
      GrantedLog(t, s, req);
      if Grant(t.source, req).Ok? {
        assert s'.log == s.log + [Grant(t.source, req).value];
      }
    }
  }

  lemma LogPrefix(log: seq<Key>, log': seq<Key>, e: ActiveEvent)
    requires |log| <= |log'| && log'[..|log|] == log && FromLog(log, e)
    ensures FromLog(log', e)
  {
  }

  // The steps that give the destination at `a` a state of the current run.
  ghost predicate Decisive(s: State, step: Step, a: Address)
    requires a in s.dests
  {
    match step
    case Deliver(m) => m.to == a && (m.event.clock == 0 || m.event.clock > s.dests[a].node.clock)
    case Duplicate(m) => m.to == a && (m.event.clock == 0 || m.event.clock > s.dests[a].node.clock)
    case DeliverReply(b) => b == a
    case Restart(b) => b == a
    case _ => false
  }

  lemma RpcStep(t: Topology, s: State, step: Step, s': State, a: Address)
    requires CoreInv(t, s) && Takes(t, s, step, s') && |s'.log| < CLOCK_MODULUS
    requires a in s.dests && |s.log| <= |s'.log|
    requires DestAgrees(t, s, a) && RpcAdvances(s, a)
    ensures RpcAdvances(s', a)
  {
    assert s'.dests[a] == DestAfter(t, s, step, a);
    if step.Process? && step.a == a {
      GrantedStep(t, s, ActivateEvent(t.keyOf[a], s.dests[a].rpc.activate));
    }
  }

  lemma DestStep(t: Topology, s: State, step: Step, s': State, a: Address)
    requires CoreInv(t, s) && Takes(t, s, step, s') && |s'.log| < CLOCK_MODULUS
    requires a in s.dests
    ensures CoreInv(t, s')
    ensures Decisive(s, step, a) ==> DestAgrees(t, s', a)
    ensures !Decisive(s, step, a) ==> s'.dests[a].node == s.dests[a].node
    ensures DestAgrees(t, s, a) ==> DestAgrees(t, s', a)
    ensures DestAgrees(t, s, a) && RpcAdvances(s, a) ==> RpcAdvances(s', a)
  {
    CoreInvStep(t, s, step, s');
    var n := s.dests[a].node;
    if n != FRESH && DestAgrees(t, s, a) {
      LogPrefix(s.log, s'.log, ActiveEvent(n.peer.value, n.clock));
    }
    if DestAgrees(t, s, a) && RpcAdvances(s, a) {
      RpcStep(t, s, step, s', a);
    }
  }

  lemma InvStep(t: Topology, s: State, step: Step, s': State)
    requires Inv(t, s) && Takes(t, s, step, s') && |s'.log| < CLOCK_MODULUS
    ensures Inv(t, s')
  {
    CoreInvStep(t, s, step, s');
    forall a | a in s'.dests ensures DestAgrees(t, s', a) && RpcAdvances(s', a) {
      DestStep(t, s, step, s', a);
    }
  }

  lemma LogGrowsStep(t: Topology, s: State, step: Step, s': State)
    requires Takes(t, s, step, s')
    ensures s.log <= s'.log
  {
  }

  lemma {:induction false} LogGrows(t: Topology, run: seq<State>, steps: seq<Step>, i: nat, j: nat)
    requires IsRun(t, run, steps) && i <= j < |run|
    ensures |run[i].log| <= |run[j].log|
    decreases j - i
  {
    if i < j {
      assert StepAt(t, run, steps, i);
      LogGrowsStep(t, run[i], steps[i], run[i + 1]);
      LogGrows(t, run, steps, i + 1, j);
    }
  }

  lemma {:induction false} RunKeepsCore(t: Topology, run: seq<State>, steps: seq<Step>, n: nat)
    requires IsRun(t, run, steps) && n < |run|
    requires CoreInv(t, run[0]) && |run[n].log| < CLOCK_MODULUS
    ensures CoreInv(t, run[n]) && run[n].dests.Keys == run[0].dests.Keys
  {
    if n > 0 {
      LogGrows(t, run, steps, n - 1, n);
      RunKeepsCore(t, run, steps, n - 1);
      assert StepAt(t, run, steps, n - 1);
      CoreInvStep(t, run[n - 1], steps[n - 1], run[n]);
    }
  }

  // --- Agreement ----------------------------------------------------------------------------

  lemma {:induction false} RunKeepsInv(t: Topology, run: seq<State>, steps: seq<Step>, n: nat)
    requires IsRun(t, run, steps) && n < |run|
    requires Inv(t, run[0]) && |run[n].log| < CLOCK_MODULUS
    ensures Inv(t, run[n])
  {
    if n > 0 {
      LogGrows(t, run, steps, n - 1, n);
      RunKeepsInv(t, run, steps, n - 1);
      assert StepAt(t, run, steps, n - 1);
      InvStep(t, run[n - 1], steps[n - 1], run[n]);
    }
  }

  /** Agreement: in every reachable state, under any loss, duplication, reordering, late reset,
      abandoned call or unguarded reply, the source holds the last entry of its log and each
      destination holds either nothing or exactly the entry at its own clock. */
  lemma Agreement(t: Topology, run: seq<State>, steps: seq<Step>, n: nat)
    requires IsRun(t, run, steps) && n < |run|
    requires ColdStart(t, run[0]) && |run[n].log| < CLOCK_MODULUS
    ensures run[n].source == At(t.source.publicKey, run[n].log, |run[n].log|)
    ensures forall a :: a in run[n].dests ==>
              var node := run[n].dests[a].node;
              node.clock <= |run[n].log| && node == At(t.keyOf[a], run[n].log, node.clock)
    ensures forall k :: k in run[n].log ==> Eligible(t.source, k)
  {
    RunKeepsInv(t, run, steps, n);
    forall a | a in run[n].dests
      ensures var node := run[n].dests[a].node;
              node.clock <= |run[n].log| && node == At(t.keyOf[a], run[n].log, node.clock)
    {
      assert DestAgrees(t, run[n], a);
    }
  }

  /** Two destinations at the same clock name the same peer, and at most one of them believes
      that it is the active host. */
  lemma SameClockSamePeer(
      t: Topology, run: seq<State>, steps: seq<Step>, n: nat, a: Address, b: Address)
    requires IsRun(t, run, steps) && n < |run|
    requires ColdStart(t, run[0]) && |run[n].log| < CLOCK_MODULUS
    requires a in run[n].dests && b in run[n].dests && t.keyOf[a] != t.keyOf[b]
    requires run[n].dests[a].node.clock == run[n].dests[b].node.clock
    ensures run[n].dests[a].node.peer == run[n].dests[b].node.peer
    ensures !(run[n].dests[a].node.hostActive && run[n].dests[b].node.hostActive)
  {
    Agreement(t, run, steps, n);
  }

  /** The clock in a reply is newer than the clock the destination held when it asked. */
  lemma RepliesAdvance(t: Topology, run: seq<State>, steps: seq<Step>, n: nat, a: Address)
    requires IsRun(t, run, steps) && n < |run|
    requires ColdStart(t, run[0]) && |run[n].log| < CLOCK_MODULUS
    requires a in run[n].dests && run[n].dests[a].rpc.Answered?
    ensures run[n].dests[a].rpc.sentAt < run[n].dests[a].rpc.event.clock <= |run[n].log|
  {
    RunKeepsInv(t, run, steps, n);
    assert RpcAdvances(run[n], a);
  }

  ghost predicate Waits(s: State, a: Address) {
    a in s.dests && !s.dests[a].rpc.Idle?
  }

  // Step j brings an entry with the given clock to the host at `a`.
  ghost predicate Brings(step: Step, a: Address, clock: nat) {
    (step.Deliver? || step.Duplicate?) && step.m.to == a && step.m.event.clock == clock
  }

  // At some step before n the host at `a`, waiting from then on, was brought the entry whose
  // clock it holds at n.
  ghost predicate BroughtWhileWaiting(run: seq<State>, steps: seq<Step>, n: nat, a: Address, clock: nat)
    requires |run| == |steps| + 1 && n < |run|
  {
    exists j :: 0 <= j < n && Brings(steps[j], a, clock) && forall k :: j <= k <= n ==> Waits(run[k], a)
  }

  ghost function SentAt(rpc: Rpc): nat
    requires !rpc.Idle?
  {
    rpc.sentAt
  }

  // While a host waits its clock rises only by what it is brought.
  lemma WaitingStep(t: Topology, s: State, step: Step, s': State, a: Address)
    requires Takes(t, s, step, s') && Waits(s', a)
    requires s'.dests[a].node.clock > SentAt(s'.dests[a].rpc)
    ensures Waits(s, a) && SentAt(s.dests[a].rpc) == SentAt(s'.dests[a].rpc)
    ensures s.dests[a].node.clock == s'.dests[a].node.clock || Brings(step, a, s'.dests[a].node.clock)
  {
    assert s'.dests[a] == DestAfter(t, s, step, a);
  }

  lemma {:induction false} RoseWhileWaiting(
      t: Topology, run: seq<State>, steps: seq<Step>, n: nat, a: Address)
    requires IsRun(t, run, steps) && n < |run| && Waits(run[n], a)
    requires a in run[0].dests ==> run[0].dests[a].rpc.Idle?
    requires run[n].dests[a].node.clock > SentAt(run[n].dests[a].rpc)
    ensures BroughtWhileWaiting(run, steps, n, a, run[n].dests[a].node.clock)
  {
    var m := n - 1;
    assert StepAt(t, run, steps, m);
    WaitingStep(t, run[m], steps[m], run[n], a);
    var clock := run[n].dests[a].node.clock;
    if !Brings(steps[m], a, clock) {
      RoseWhileWaiting(t, run, steps, m, a);
      var j :| 0 <= j < m && Brings(steps[j], a, clock) && forall k :: j <= k <= m ==> Waits(run[k], a);
      assert forall k :: j <= k <= n ==> Waits(run[k], a);
    }
  }

  /** A destination's clock falls only by a reset, by its own restart, or by applying a reply that
      a newer broadcast has overtaken: it came while the destination was waiting for that reply. */
  lemma OnlyOvertakenRepliesRegress(
      t: Topology, run: seq<State>, steps: seq<Step>, n: nat, a: Address)
    requires IsRun(t, run, steps) && n < |steps|
    requires ColdStart(t, run[0]) && |run[n + 1].log| < CLOCK_MODULUS
    requires a in run[n].dests
    ensures a in run[n + 1].dests
    ensures run[n + 1].dests[a].node.clock < run[n].dests[a].node.clock ==>
              || steps[n] == Restart(a)
              || Brings(steps[n], a, 0)
              || (&& steps[n] == DeliverReply(a) && run[n].dests[a].rpc.Answered?
                  && run[n].dests[a].rpc.sentAt < run[n].dests[a].rpc.event.clock < run[n].dests[a].node.clock
                  && BroughtWhileWaiting(run, steps, n, a, run[n].dests[a].node.clock))
  {
    LogGrows(t, run, steps, n, n + 1);
    RunKeepsInv(t, run, steps, n);
    assert StepAt(t, run, steps, n);
    DestStep(t, run[n], steps[n], run[n + 1], a);
    assert RpcAdvances(run[n], a);
    if steps[n] == DeliverReply(a) && run[n].dests[a].rpc.event.clock < run[n].dests[a].node.clock {
      RoseWhileWaiting(t, run, steps, n, a);
    }
  }

  // --- Restart of the source ----------------------------------------------------------------

  ghost predicate DecisiveBefore(run: seq<State>, steps: seq<Step>, n: nat, a: Address)
    requires |run| == |steps| + 1 && n <= |steps|
  {
    exists i :: 0 <= i < n && a in run[i].dests && Decisive(run[i], steps[i], a)
  }

  lemma DecisiveBeforeStep(run: seq<State>, steps: seq<Step>, n: nat, a: Address)
    requires |run| == |steps| + 1 && 0 < n <= |steps| && a in run[n - 1].dests
    ensures DecisiveBefore(run, steps, n, a) <==>
            DecisiveBefore(run, steps, n - 1, a) || Decisive(run[n - 1], steps[n - 1], a)
  {
  }

  // Whatever the destination at `a` held when the run began, it agrees with the log from its
  // first decisive step on and keeps what it held until then.
  lemma {:induction false} RunRecovers(
      t: Topology, run: seq<State>, steps: seq<Step>, n: nat, a: Address)
    requires IsRun(t, run, steps) && n < |run|
    requires CoreInv(t, run[0]) && |run[n].log| < CLOCK_MODULUS
    requires a in run[0].dests
    ensures a in run[n].dests
    ensures DecisiveBefore(run, steps, n, a) ==> DestAgrees(t, run[n], a)
    ensures !DecisiveBefore(run, steps, n, a) ==> run[n].dests[a].node == run[0].dests[a].node
  {
    if n > 0 {
      LogGrows(t, run, steps, n - 1, n);
      RunRecovers(t, run, steps, n - 1, a);
      RunKeepsCore(t, run, steps, n - 1);
      assert StepAt(t, run, steps, n - 1);
      DestStep(t, run[n - 1], steps[n - 1], run[n], a);
      DecisiveBeforeStep(run, steps, n, a);
    }
  }

  /** A source restarts while a destination still holds state of an earlier run, and the old
      calls have drained. The destination rejoins the new run at the first reset, reply or
      broadcast above the clock it held, and stays; until then it keeps its old state, because
      what it ignores is exactly the broadcasts with a clock from 1 to the one it holds. */
  lemma RestartRecovery(
      t: Topology, run: seq<State>, steps: seq<Step>, n: nat, a: Address)
    requires IsRun(t, run, steps) && n < |run|
    requires SourceStart(t, run[0]) && |run[n].log| < CLOCK_MODULUS
    requires a in run[0].dests
    ensures a in run[n].dests
    ensures DecisiveBefore(run, steps, n, a) ==> DestAgrees(t, run[n], a)
    ensures !DecisiveBefore(run, steps, n, a) ==> run[n].dests[a].node == run[0].dests[a].node
  {
    RunRecovers(t, run, steps, n, a);
  }

  // The state a starting source makes: its resets are on their way to all destinations.
  ghost predicate Startup(t: Topology, s: State) {
    SourceStart(t, s) && s.net == multiset(Resets(t.source.peers, t.source.publicKey))
  }

  /** The calls a starting source spawns put the system in a state `RestartRecovery` speaks of. */
  lemma StartupSendsResets(t: Topology, dests: map<Address, Dest>)
    requires dests.Keys <= t.keyOf.Keys
    requires forall a :: a in dests ==> dests[a].rpc == Idle
    ensures Startup(t, State(FRESH, [], dests, multiset(Resets(t.source.peers, t.source.publicKey))))
  {
    forall m | m in multiset(Resets(t.source.peers, t.source.publicKey))
      ensures m.event.clock == 0
    {
      ResetsAreResets(t.source.peers, t.source.publicKey, m);
    }
  }
}
