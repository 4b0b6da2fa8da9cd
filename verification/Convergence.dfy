/** When a destination ends up where the source is. The reply to a host's own request is applied
    without a clock comparison (`src/transport/active.rs:182-184,214-216`), and the resets of a
    starting source travel beside its first calls (`src/daemon/daemon.rs:41-60`), so convergence is
    conditional; this module proves exactly when it holds. What happens to other hosts and to the
    calls for them does not matter. */
module Convergence {
  import opened Settings
  import opened Active
  import opened Protocol

  // The source knows every destination under the address and the key it really has.
  ghost predicate WellConfigured(t: Topology, s: State) {
    && WellFormed(t, s)
    && t.source.scrollSource
    && DistinctKeys(t.source.peers)
    && DistinctAddresses(t.source.peers)
    && (forall p :: p in t.source.peers ==> p.publicKey != t.source.publicKey)
    && (forall a :: a in s.dests ==> exists p :: p in t.source.peers && DestEntry(t, p, a))
  }

  ghost predicate DestEntry(t: Topology, p: PeerConfig, a: Address)
    requires a in t.keyOf
  {
    p.address == a && p.publicKey == t.keyOf[a] && p.scrollDestination
  }

  // Every call is delivered exactly once and nobody gives up or restarts.
  ghost predicate Lossless(step: Step) {
    step.Send? || step.Process? || step.Deliver? || step.DeliverReply?
  }

  ghost predicate LosslessRun(t: Topology, run: seq<State>, steps: seq<Step>) {
    IsRun(t, run, steps) && forall i :: 0 <= i < |steps| ==> Lossless(steps[i])
  }

  ghost predicate Quiescent(s: State) {
    s.net == multiset{} && forall a :: a in s.dests ==> s.dests[a].rpc.Idle?
  }

  ghost predicate InSync(s: State, a: Address)
    requires a in s.dests
  {
    s.dests[a].node.peer == s.source.peer && s.dests[a].node.clock == s.source.clock
  }

  // Nothing is in flight and every destination holds some entry of the log, or nothing.
  ghost predicate AtRest(t: Topology, s: State) {
    Inv(t, s) && Quiescent(s)
  }

  // Nothing is in flight for the host at `a`.
  ghost predicate NothingFor(s: State, a: Address)
    requires a in s.dests
  {
    (forall m :: m in s.net ==> m.to != a) && s.dests[a].rpc.Idle?
  }

  // Nothing is in flight for the host at `a`, except resets of a source that has only started. It
  // may hold anything, such as what an earlier run of the source has left it with.
  ghost predicate Still(t: Topology, s: State, a: Address) {
    && CoreInv(t, s)
    && a in s.dests && s.dests[a].rpc.Idle?
    && forall m :: m in s.net && m.to == a ==> m.event.clock == 0 && s.log == []
  }

  // The step loses nothing that is for the host at `a`: no call, no reply, no activation of its
  // own whose reply reaches nobody, and not the host itself. Calls for `a` may be repeated, and
  // anything may happen to others.
  ghost predicate Keeps(t: Topology, s: State, step: Step, a: Address)
    requires a in t.keyOf && a in s.dests
  {
    match step
    case Lose(m) => m.to != a
    case FailCall(b) => b == a ==> !s.dests[a].rpc.Answered?
    case Restart(b) => b != a
    case Stray(req) => !(req.state && req.peer == t.keyOf[a])
    case _ => true
  }

  ghost predicate KeepsAt(t: Topology, run: seq<State>, steps: seq<Step>, i: nat, a: Address)
    requires |run| == |steps| + 1 && i < |steps|
  {
    a in t.keyOf && a in run[i].dests && Keeps(t, run[i], steps[i], a)
  }

  // A run that loses nothing for the host at `a`.
  ghost predicate KeepingRun(t: Topology, run: seq<State>, steps: seq<Step>, a: Address) {
    IsRun(t, run, steps) && forall i :: 0 <= i < |steps| ==> KeepsAt(t, run, steps, i, a)
  }

  lemma LosslessKeeps(t: Topology, run: seq<State>, steps: seq<Step>, a: Address)
    requires LosslessRun(t, run, steps) && a in run[0].dests
    ensures KeepingRun(t, run, steps, a)
  {
    forall i | 0 <= i < |steps| ensures KeepsAt(t, run, steps, i, a) {
      RunKeepsHosts(t, run, steps, i);
      assert Lossless(steps[i]);
    }
  }

  lemma {:induction false} RunKeepsHosts(t: Topology, run: seq<State>, steps: seq<Step>, n: nat)
    requires IsRun(t, run, steps) && n < |run|
    ensures run[n].dests.Keys == run[0].dests.Keys <= t.keyOf.Keys
  {
    if n > 0 {
      RunKeepsHosts(t, run, steps, n - 1);
      assert StepAt(t, run, steps, n - 1);
    }
  }

  // --- What comes to one host ---------------------------------------------------------------

  // The step brings entry `newest` to the host at `a`, by a call or by its reply.
  ghost predicate BringsEntry(s: State, step: Step, a: Address, newest: nat)
    requires a in s.dests
  {
    newest > 0
    && (Brings(step, a, newest)
        || (step == DeliverReply(a) && s.dests[a].rpc.Answered? && s.dests[a].rpc.event.clock == newest))
  }

  ghost predicate BringsReset(step: Step, a: Address) {
    Brings(step, a, 0)
  }

  // The step applies a reply older than entry `newest` at `a`.
  ghost predicate AppliesOlder(s: State, step: Step, a: Address, newest: nat)
    requires a in s.dests
  {
    step == DeliverReply(a) && s.dests[a].rpc.Answered? && s.dests[a].rpc.event.clock < newest
  }

  // The step makes the host at `a` forget entry `newest`, if it holds it.
  ghost predicate Spoils(s: State, step: Step, a: Address, newest: nat)
    requires a in s.dests
  {
    BringsReset(step, a) || AppliesOlder(s, step, a, newest)
  }

  // Entry `newest` came to `a` before step n, or after step j and before step n.
  ghost predicate Came(run: seq<State>, steps: seq<Step>, n: nat, a: Address, newest: nat)
    requires |run| == |steps| + 1 && n <= |steps|
  {
    exists i :: 0 <= i < n && a in run[i].dests && BringsEntry(run[i], steps[i], a, newest)
  }

  ghost predicate CameSince(run: seq<State>, steps: seq<Step>, j: nat, n: nat, a: Address, newest: nat)
    requires |run| == |steps| + 1 && n <= |steps|
  {
    exists i :: j < i < n && a in run[i].dests && BringsEntry(run[i], steps[i], a, newest)
  }

  // At step j the host at `a` forgets entry `newest`, which had come, and it does not come again.
  ghost predicate Forgets(run: seq<State>, steps: seq<Step>, j: nat, n: nat, a: Address, newest: nat)
    requires |run| == |steps| + 1 && j < n <= |steps|
  {
    && a in run[j].dests && Spoils(run[j], steps[j], a, newest)
    && Came(run, steps, j, a, newest) && !CameSince(run, steps, j, n, a, newest)
  }

  // After the last entry of the log had come to `a` for the last time, an older reply or a reset
  // came.
  ghost predicate Overtaken(run: seq<State>, steps: seq<Step>, n: nat, a: Address)
    requires |run| == |steps| + 1 && n <= |steps|
  {
    exists j :: 0 <= j < n && Forgets(run, steps, j, n, a, |run[n].log|)
  }

  // --- Invariant ----------------------------------------------------------------------------

  ghost predicate NewestInNet(s: State, a: Address) {
    exists m :: m in s.net && m.to == a && m.event.clock == |s.log|
  }

  ghost predicate NewestInReply(s: State, a: Address)
    requires a in s.dests
  {
    s.dests[a].rpc.Answered? && s.dests[a].rpc.event.clock == |s.log|
  }

  // What the run has brought to one host: the clock it began with, whether a step has been
  // decisive for it, whether the newest entry has come to it, and whether something that makes it
  // forget that entry came after that.
  datatype Past = Past(began: nat, decisive: bool, came: bool, overtaken: bool)

  // Where the newest entry is, as far as the host at `a` is concerned, once one was granted.
  ghost predicate Tracked(s: State, a: Address, h: Past)
    requires a in s.dests
  {
    && (h.decisive ==> s.dests[a].node.clock <= |s.log|)
    && (h.decisive && s.dests[a].node.clock == |s.log| ==> h.came)
    && if h.overtaken then
         h.decisive && s.dests[a].node.clock < |s.log|
       else if h.decisive then
         s.dests[a].node.clock == |s.log| || NewestInNet(s, a) || NewestInReply(s, a)
       else
         && s.dests[a].node.clock == h.began
         && (h.came ==> |s.log| <= h.began)
         && (h.came || NewestInNet(s, a) || NewestInReply(s, a))
  }

  // What a step that grants nothing adds to it.
  ghost function PastAfter(s: State, step: Step, a: Address, h: Past): Past
    requires a in s.dests
  {
    var newest := |s.log|;
    Past(h.began,
         h.decisive || Decisive(s, step, a),
         h.came || BringsEntry(s, step, a, newest),
         !BringsEntry(s, step, a, newest) && (h.overtaken || (h.came && Spoils(s, step, a, newest))))
  }

  lemma ConfiguredIsGranted(t: Topology, s: State, b: Address, req: ActivateEvent)
    requires WellConfigured(t, s) && b in s.dests && req.peer == t.keyOf[b]
    ensures Grant(t.source, req).Ok?
    ensures req.state ==> Grant(t.source, req).value == req.peer
  {
  }

  // What the source does when it answers the host at `b`.
  lemma ProcessFacts(t: Topology, s: State, b: Address, s': State)
    requires CoreInv(t, s) && WellConfigured(t, s) && Takes(t, s, Process(b), s')
    requires |s'.log| < CLOCK_MODULUS
    ensures |s'.log| == |s.log| + 1
    ensures forall a :: a in s.dests ==> s'.dests[a].node == s.dests[a].node
    ensures forall a :: a in s.dests && a != b ==> s'.dests[a] == s.dests[a]
    ensures NewestInReply(s', b)
    ensures var e := ActiveEvent(s'.log[|s.log|], |s'.log|);
            && s'.net == s.net + multiset(Broadcasts(t.source.peers, e))
            && (e.peer == t.keyOf[b] || e.peer == t.source.publicKey)
  {
    var req := ActivateEvent(t.keyOf[b], s.dests[b].rpc.activate);
    ConfiguredIsGranted(t, s, b, req);
    GrantedStep(t, s, req);
    assert forall a :: a in s.dests ==> s'.dests[a] == DestAfter(t, s, Process(b), a);
  }

  // The source handles a request, and the log gets one entry more.
  ghost predicate Grants(s: State, step: Step, s': State) {
    (step.Process? || step.Stray?) && |s'.log| > |s.log|
  }

  lemma GrantsOrNot(t: Topology, s: State, step: Step, s': State)
    requires CoreInv(t, s) && Takes(t, s, step, s') && |s'.log| < CLOCK_MODULUS
    ensures Grants(s, step, s') || s'.log == s.log
    ensures Grants(s, step, s') ==> |s'.log| == |s.log| + 1
    ensures step.Stray? && !Grants(s, step, s') ==> s'.net == s.net
    ensures !Grants(s, step, s') ==> s'.source == s.source && s'.net <= s.net
  {
    if step.Process? {
      GrantedLog(t, s, ActivateEvent(t.keyOf[step.a], s.dests[step.a].rpc.activate));
    } else if step.Stray? {
      GrantedLog(t, s, step.req);
    }
  }

  // A broadcast of entry e is on its way to `a`, unless e makes the host at `a` active.
  lemma BroadcastReaches(t: Topology, s: State, a: Address, e: ActiveEvent)
    requires WellConfigured(t, s) && a in s.dests && e.peer != t.keyOf[a]
    ensures Broadcast(a, e) in multiset(Broadcasts(t.source.peers, e))
  {
    var p :| p in t.source.peers && DestEntry(t, p, a);
    BroadcastCount(t.source.peers, e, Broadcast(a, e));
  }

  lemma KeysDiffer(t: Topology, s: State, a: Address, b: Address)
    requires WellConfigured(t, s) && a in s.dests && b in s.dests && a != b
    ensures t.keyOf[a] != t.keyOf[b]
  {
    var p :| p in t.source.peers && DestEntry(t, p, a);
    var q :| q in t.source.peers && DestEntry(t, q, b);
    SameEntry(t.source.peers);
  }

  lemma KeyIsNotTheSources(t: Topology, s: State, a: Address)
    requires WellConfigured(t, s) && a in s.dests
    ensures t.keyOf[a] != t.source.publicKey
  {
    var p :| p in t.source.peers && DestEntry(t, p, a);
  }

  // A new entry is on its way to the host at `a`, whoever asked for it.
  lemma NewEntryCovers(t: Topology, s: State, step: Step, s': State, a: Address)
    requires CoreInv(t, s) && WellConfigured(t, s) && Takes(t, s, step, s') && |s'.log| < CLOCK_MODULUS
    requires a in s.dests && Keeps(t, s, step, a) && Grants(s, step, s')
    ensures s'.dests[a].node == s.dests[a].node
    ensures NewestInNet(s', a) || NewestInReply(s', a)
  {
    assert s'.dests[a] == DestAfter(t, s, step, a);
    if step == Process(a) {
      ProcessFacts(t, s, a, s');
    } else {
      var req := if step.Stray? then step.req else ActivateEvent(t.keyOf[step.a], s.dests[step.a].rpc.activate);
      GrantedStep(t, s, req);
      KeyIsNotTheSources(t, s, a);
      if step.Process? {
        KeysDiffer(t, s, a, step.a);
      }
      var e := ActiveEvent(Grant(t.source, req).value, |s.log| + 1);
      EntryIsOthers(t, req, a);
      BroadcastReaches(t, s, a, e);
      assert Broadcast(a, e) in s'.net;
    }
  }

  // The host a granted request makes active is its requester or the source.
  lemma EntryIsOthers(t: Topology, req: ActivateEvent, a: Address)
    requires Grant(t.source, req).Ok? && a in t.keyOf && t.keyOf[a] != t.source.publicKey
    requires !(req.state && req.peer == t.keyOf[a])
    ensures Grant(t.source, req).value != t.keyOf[a]
  {
  }

  lemma StillInNet(s: State, step: Step, s': State, a: Address)
    requires s'.log == s.log && s'.net <= s.net
    requires forall m :: m in s.net && m.to == a && m.event.clock == |s.log| ==> m in s'.net
    ensures NewestInNet(s', a) <==> NewestInNet(s, a)
  {
    if NewestInNet(s, a) {
      var m :| m in s.net && m.to == a && m.event.clock == |s.log|;
      assert m in s'.net;
    }
  }

  lemma TrackedBrings(t: Topology, s: State, step: Step, s': State, a: Address, h: Past)
    requires CoreInv(t, s) && Takes(t, s, step, s') && s'.log == s.log
    requires a in s.dests && Tracked(s, a, h) && BringsEntry(s, step, a, |s.log|)
    ensures Tracked(s', a, PastAfter(s, step, a, h))
  {
    assert s'.dests[a] == DestAfter(t, s, step, a);
  }

  lemma TrackedSpoils(t: Topology, s: State, step: Step, s': State, a: Address, h: Past)
    requires CoreInv(t, s) && Takes(t, s, step, s') && s'.log == s.log && s.log != []
    requires a in s.dests && Tracked(s, a, h) && Spoils(s, step, a, |s.log|)
    ensures Tracked(s', a, PastAfter(s, step, a, h))
  {
    assert s'.dests[a] == DestAfter(t, s, step, a);
    StillInNet(s, step, s', a);
  }

  // Any other step for the host at `a`, or a step that is not for it.
  lemma TrackedOther(t: Topology, s: State, step: Step, s': State, a: Address, h: Past)
    requires CoreInv(t, s) && Takes(t, s, step, s') && s'.log == s.log && s'.net <= s.net
    requires a in s.dests && Tracked(s, a, h) && Keeps(t, s, step, a)
    requires !BringsEntry(s, step, a, |s.log|) && !Spoils(s, step, a, |s.log|) && s.log != []
    requires !step.Process? && (step.Stray? ==> s'.net == s.net)
    ensures Tracked(s', a, PastAfter(s, step, a, h))
  {
    assert s'.dests[a] == DestAfter(t, s, step, a);
    StillInNet(s, step, s', a);
  }

  lemma TrackedGrant(t: Topology, s: State, step: Step, s': State, a: Address, h: Past)
    requires CoreInv(t, s) && WellConfigured(t, s) && Takes(t, s, step, s') && |s'.log| < CLOCK_MODULUS
    requires a in s.dests && Keeps(t, s, step, a) && Grants(s, step, s')
    requires if h.decisive then s.dests[a].node.clock <= |s.log| else s.dests[a].node.clock == h.began
    ensures Tracked(s', a, Past(h.began, h.decisive, false, false))
  {
    NewEntryCovers(t, s, step, s', a);
  }

  lemma TrackedStep(t: Topology, s: State, step: Step, s': State, a: Address, h: Past)
    requires CoreInv(t, s) && WellConfigured(t, s) && Takes(t, s, step, s') && |s'.log| < CLOCK_MODULUS
    requires a in s.dests && Keeps(t, s, step, a) && Tracked(s, a, h) && s.log != []
    ensures if Grants(s, step, s') then Tracked(s', a, Past(h.began, h.decisive, false, false))
            else Tracked(s', a, PastAfter(s, step, a, h))
  {
    GrantsOrNot(t, s, step, s');
    if Grants(s, step, s') {
      TrackedGrant(t, s, step, s', a, h);
    } else if BringsEntry(s, step, a, |s.log|) {
      TrackedBrings(t, s, step, s', a, h);
    } else if Spoils(s, step, a, |s.log|) {
      TrackedSpoils(t, s, step, s', a, h);
    } else {
      if step.Process? {
        ProcessFacts(t, s, step.a, s');
      }
      TrackedOther(t, s, step, s', a, h);
    }
  }

  // --- Convergence --------------------------------------------------------------------------

  lemma RunKeepsConfig(t: Topology, run: seq<State>, steps: seq<Step>, n: nat)
    requires IsRun(t, run, steps) && n < |run|
    requires WellConfigured(t, run[0]) && CoreInv(t, run[0]) && |run[n].log| < CLOCK_MODULUS
    ensures WellConfigured(t, run[n]) && CoreInv(t, run[n]) && run[n].dests.Keys == run[0].dests.Keys
  {
    RunKeepsCore(t, run, steps, n);
  }

  // What has happened to the host at `a` in the first n steps.
  ghost function PastOf(run: seq<State>, steps: seq<Step>, n: nat, a: Address): Past
    requires |run| == |steps| + 1 && n <= |steps| && a in run[0].dests
  {
    Past(run[0].dests[a].node.clock, DecisiveBefore(run, steps, n, a),
         Came(run, steps, n, a, |run[n].log|), Overtaken(run, steps, n, a))
  }

  // A call or a reply carries an entry the log has when it comes.
  lemma CallsAreOld(t: Topology, run: seq<State>, steps: seq<Step>, i: nat, n: nat, a: Address)
    requires IsRun(t, run, steps) && i < n < |run| && CoreInv(t, run[0]) && |run[n].log| < CLOCK_MODULUS
    requires a in run[i].dests
    ensures |run[i].log| <= |run[n].log|
    ensures forall c: nat :: BringsEntry(run[i], steps[i], a, c) ==> c <= |run[i].log|
  {
    LogGrows(t, run, steps, i, n);
    RunKeepsCore(t, run, steps, i);
    assert StepAt(t, run, steps, i);
  }

  // Nothing that came before an entry was made can carry it.
  lemma NewEntryHasNotCome(t: Topology, run: seq<State>, steps: seq<Step>, n: nat, a: Address)
    requires IsRun(t, run, steps) && 0 < n < |run| && CoreInv(t, run[0]) && |run[n].log| < CLOCK_MODULUS
    requires |run[n].log| > |run[n - 1].log|
    ensures !Came(run, steps, n, a, |run[n].log|) && !Overtaken(run, steps, n, a)
  {
    forall i | 0 <= i < n && a in run[i].dests ensures !BringsEntry(run[i], steps[i], a, |run[n].log|) {
      LogGrows(t, run, steps, i, n - 1);
      CallsAreOld(t, run, steps, i, n, a);
    }
  }

  lemma CameStep(run: seq<State>, steps: seq<Step>, m: nat, n: nat, a: Address, newest: nat)
    requires |run| == |steps| + 1 && n == m + 1 <= |steps| && a in run[m].dests
    ensures Came(run, steps, n, a, newest) <==>
            Came(run, steps, m, a, newest) || BringsEntry(run[m], steps[m], a, newest)
  {
  }

  lemma CameSinceStep(run: seq<State>, steps: seq<Step>, j: nat, m: nat, n: nat, a: Address, newest: nat)
    requires |run| == |steps| + 1 && j < m && n == m + 1 <= |steps| && a in run[m].dests
    ensures CameSince(run, steps, j, n, a, newest) <==>
            CameSince(run, steps, j, m, a, newest) || BringsEntry(run[m], steps[m], a, newest)
  {
  }

  lemma OvertakenStep(run: seq<State>, steps: seq<Step>, m: nat, n: nat, a: Address)
    requires |run| == |steps| + 1 && n == m + 1 <= |steps| && |run[n].log| == |run[m].log|
    requires a in run[m].dests
    ensures var newest := |run[m].log|;
            Overtaken(run, steps, n, a) <==>
            !BringsEntry(run[m], steps[m], a, newest)
            && (Overtaken(run, steps, m, a)
                || (Came(run, steps, m, a, newest) && Spoils(run[m], steps[m], a, newest)))
  {
    var newest := |run[m].log|;
    forall j | 0 <= j < m
      ensures Forgets(run, steps, j, n, a, newest) <==>
              Forgets(run, steps, j, m, a, newest) && !BringsEntry(run[m], steps[m], a, newest)
    {
      CameSinceStep(run, steps, j, m, n, a, newest);
    }
    assert Forgets(run, steps, m, n, a, newest) <==>
           Spoils(run[m], steps[m], a, newest) && Came(run, steps, m, a, newest);
  }

  lemma PastStep(t: Topology, run: seq<State>, steps: seq<Step>, m: nat, n: nat, a: Address)
    requires KeepingRun(t, run, steps, a) && n == m + 1 < |run|
    requires WellConfigured(t, run[0]) && CoreInv(t, run[0]) && |run[n].log| < CLOCK_MODULUS
    requires a in run[0].dests && a in run[m].dests
    ensures var h := PastOf(run, steps, m, a);
            PastOf(run, steps, n, a)
            == if Grants(run[m], steps[m], run[n]) then Past(h.began, h.decisive, false, false)
               else PastAfter(run[m], steps[m], a, h)
  {
    LogGrows(t, run, steps, m, n);
    RunKeepsCore(t, run, steps, m);
    assert StepAt(t, run, steps, m);
    GrantsOrNot(t, run[m], steps[m], run[n]);
    DecisiveBeforeStep(run, steps, n, a);
    if Grants(run[m], steps[m], run[n]) {
      NewEntryHasNotCome(t, run, steps, n, a);
    } else {
      CameStep(run, steps, m, n, a, |run[n].log|);
      OvertakenStep(run, steps, m, n, a);
    }
  }

  // Up to the first grant nothing but resets comes to the host at `a`.
  ghost predicate NothingYet(s: State, a: Address, decisive: bool)
    requires a in s.dests
  {
    && (forall m :: m in s.net && m.to == a ==> m.event.clock == 0 && s.log == [])
    && !s.dests[a].rpc.Answered?
    && (decisive ==> s.dests[a].node == FRESH && s.log == [])
  }

  lemma NothingYetStep(t: Topology, s: State, step: Step, s': State, a: Address, decisive: bool)
    requires CoreInv(t, s) && WellConfigured(t, s) && Takes(t, s, step, s') && |s'.log| < CLOCK_MODULUS
    requires a in s.dests && Keeps(t, s, step, a) && NothingYet(s, a, decisive) && !Grants(s, step, s')
    ensures NothingYet(s', a, decisive || Decisive(s, step, a))
  {
    GrantsOrNot(t, s, step, s');
    assert s'.dests[a] == DestAfter(t, s, step, a);
    if step.Process? {
      ProcessFacts(t, s, step.a, s');
    } else {
      assert s'.net <= s.net;
    }
  }

  // What is known of the host at `a` after n steps.
  ghost predicate Known(s0: State, s: State, a: Address, h: Past)
    requires a in s.dests
  {
    if |s.log| == |s0.log| then NothingYet(s, a, h.decisive) else Tracked(s, a, h)
  }

  lemma KnownStep(t: Topology, s0: State, s: State, step: Step, s': State, a: Address, h: Past)
    requires CoreInv(t, s) && WellConfigured(t, s) && Takes(t, s, step, s') && |s'.log| < CLOCK_MODULUS
    requires a in s.dests && Keeps(t, s, step, a) && |s0.log| <= |s.log| && Known(s0, s, a, h)
    requires !h.decisive ==> s.dests[a].node.clock == h.began
    ensures Known(s0, s', a, if Grants(s, step, s') then Past(h.began, h.decisive, false, false)
                             else PastAfter(s, step, a, h))
  {
    GrantsOrNot(t, s, step, s');
    if |s.log| > |s0.log| {
      TrackedStep(t, s, step, s', a, h);
    } else if Grants(s, step, s') {
      TrackedGrant(t, s, step, s', a, h);
    } else {
      NothingYetStep(t, s, step, s', a, h.decisive);
    }
  }

  lemma {:induction false} RunTracks(
      t: Topology, run: seq<State>, steps: seq<Step>, n: nat, a: Address)
    requires KeepingRun(t, run, steps, a) && n < |run|
    requires WellConfigured(t, run[0]) && Still(t, run[0], a) && |run[n].log| < CLOCK_MODULUS
    ensures a in run[n].dests && |run[0].log| <= |run[n].log|
    ensures Known(run[0], run[n], a, PastOf(run, steps, n, a))
  {
    if n > 0 {
      var m := n - 1;
      LogGrows(t, run, steps, m, n);
      RunTracks(t, run, steps, m, a);
      RunKeepsConfig(t, run, steps, m);
      RunRecovers(t, run, steps, m, a);
      assert StepAt(t, run, steps, m) && KeepsAt(t, run, steps, m, a);
      PastStep(t, run, steps, m, n, a);
      KnownStep(t, run[0], run[m], steps[m], run[n], a, PastOf(run, steps, m, a));
    }
  }

  // What the host at `a` knew when the run began is what the source knows now.
  ghost predicate KnewIt(run: seq<State>, n: nat, a: Address)
    requires n < |run| && a in run[0].dests
  {
    && run[0].dests[a].node.peer == run[n].source.peer
    && run[0].dests[a].node.clock == run[n].source.clock
  }

  /** Convergence, exactly, of one host. The run loses nothing that is for it, whatever happens to
      others, and begins with nothing in flight for it but resets of a source that has only
      started; it may hold anything, in particular what an earlier run of the source has left it
      with. Once nothing is in flight for it, it is where the source is if and only if either
      something decisive has come to it and it has not been overtaken by an older reply or a reset
      after the last entry, or nothing decisive has come and it happened to know already. */
  lemma ConvergesIff(t: Topology, run: seq<State>, steps: seq<Step>, n: nat, a: Address)
    requires KeepingRun(t, run, steps, a) && n < |run|
    requires WellConfigured(t, run[0]) && Still(t, run[0], a) && |run[n].log| < CLOCK_MODULUS
    requires a in run[n].dests && NothingFor(run[n], a)
    ensures InSync(run[n], a) <==>
            if DecisiveBefore(run, steps, n, a) then !Overtaken(run, steps, n, a) else KnewIt(run, n, a)
  {
    RunTracks(t, run, steps, n, a);
    RunRecovers(t, run, steps, n, a);
    RunKeepsCore(t, run, steps, n);
  }

  lemma {:induction false} LogIsKept(t: Topology, run: seq<State>, steps: seq<Step>, n: nat)
    requires IsRun(t, run, steps) && n < |run|
    ensures run[0].log <= run[n].log
  {
    if n > 0 {
      LogIsKept(t, run, steps, n - 1);
      assert StepAt(t, run, steps, n - 1);
      LogGrowsStep(t, run[n - 1], steps[n - 1], run[n]);
    }
  }

  /** The same for a host that begins with some entry of the log, or nothing: it ends where the
      source is if and only if it has not been overtaken, and some request was granted or it was
      there to begin with. */
  lemma ConvergesFromRestIff(t: Topology, run: seq<State>, steps: seq<Step>, n: nat, a: Address)
    requires KeepingRun(t, run, steps, a) && n < |run|
    requires WellConfigured(t, run[0]) && Still(t, run[0], a) && DestAgrees(t, run[0], a)
    requires |run[n].log| < CLOCK_MODULUS && a in run[n].dests && NothingFor(run[n], a)
    ensures InSync(run[n], a) <==>
            !Overtaken(run, steps, n, a) && (|run[n].log| > |run[0].log| || InSync(run[0], a))
  {
    ConvergesIff(t, run, steps, n, a);
    RunTracks(t, run, steps, n, a);
    RunKeepsCore(t, run, steps, n);
    LogIsKept(t, run, steps, n);
    if |run[n].log| == |run[0].log| {
      assert run[n].log == run[0].log;
      NothingCameYet(t, run, steps, n, a);
    }
  }

  lemma NothingCameYet(t: Topology, run: seq<State>, steps: seq<Step>, n: nat, a: Address)
    requires KeepingRun(t, run, steps, a) && n < |run|
    requires WellConfigured(t, run[0]) && Still(t, run[0], a) && |run[n].log| < CLOCK_MODULUS
    requires |run[n].log| == |run[0].log|
    ensures !Overtaken(run, steps, n, a)
  {
    forall i | 0 <= i < n && a in run[i].dests ensures !BringsEntry(run[i], steps[i], a, |run[n].log|) {
      LogGrows(t, run, steps, 0, i);
      LogGrows(t, run, steps, i, n);
      RunTracks(t, run, steps, i, a);
      assert StepAt(t, run, steps, i);
    }
  }

  // --- Requests made one at a time ------------------------------------------------------------

  // At most one host is waiting, and an answer on its way carries the newest entry.
  ghost predicate OneWaiting(s: State) {
    && (forall a, b :: a in s.dests && b in s.dests && !s.dests[a].rpc.Idle? && !s.dests[b].rpc.Idle? ==> a == b)
    && (forall a :: a in s.dests && s.dests[a].rpc.Answered? ==> s.dests[a].rpc.event.clock == |s.log|)
  }

  ghost predicate AllIdle(s: State) {
    forall a :: a in s.dests ==> s.dests[a].rpc.Idle?
  }

  // Requests are serialised: one goes out, and a request whose reply reaches nobody is handled,
  // only when no reply is outstanding anywhere.
  ghost predicate Serialised(run: seq<State>, steps: seq<Step>)
    requires |run| == |steps| + 1
  {
    && OneWaiting(run[0])
    && forall i :: 0 <= i < |steps| ==> Alone(run[i], steps[i])
  }

  ghost predicate Alone(s: State, step: Step) {
    step.Send? || step.Stray? ==> AllIdle(s)
  }

  lemma OneWaitingProcess(t: Topology, s: State, b: Address, s': State)
    requires CoreInv(t, s) && WellConfigured(t, s) && Takes(t, s, Process(b), s') && OneWaiting(s)
    requires |s'.log| < CLOCK_MODULUS
    ensures OneWaiting(s')
  {
    ProcessFacts(t, s, b, s');
    assert !s.dests[b].rpc.Idle?;
    forall a | a in s'.dests && !s'.dests[a].rpc.Idle? ensures a == b {
    }
  }

  lemma OneWaitingQuiet(t: Topology, s: State, step: Step, s': State)
    requires Takes(t, s, step, s') && OneWaiting(s) && !step.Process? && !step.Stray?
    requires step.Send? ==> AllIdle(s)
    ensures OneWaiting(s')
  {
    forall a | a in s'.dests && !s'.dests[a].rpc.Idle?
      ensures if step.Send? then a == step.a && s'.dests[a].rpc.Asking?
              else s'.dests[a].rpc == s.dests[a].rpc
    {
      assert s'.dests[a] == DestAfter(t, s, step, a);
    }
  }

  lemma OneWaitingStray(t: Topology, s: State, step: Step, s': State)
    requires Takes(t, s, step, s') && step.Stray? && AllIdle(s)
    ensures OneWaiting(s')
  {
    forall a | a in s'.dests ensures s'.dests[a].rpc.Idle? {
      assert s'.dests[a] == DestAfter(t, s, step, a);
    }
  }

  lemma OneWaitingStep(t: Topology, s: State, step: Step, s': State)
    requires CoreInv(t, s) && WellConfigured(t, s) && Takes(t, s, step, s') && OneWaiting(s)
    requires |s'.log| < CLOCK_MODULUS && Alone(s, step)
    ensures OneWaiting(s')
  {
    if step.Process? {
      OneWaitingProcess(t, s, step.a, s');
    } else if step.Stray? {
      OneWaitingStray(t, s, step, s');
    } else {
      OneWaitingQuiet(t, s, step, s');
    }
  }

  lemma OneWaitingAt(t: Topology, run: seq<State>, steps: seq<Step>, m: nat, n: nat)
    requires IsRun(t, run, steps) && n == m + 1 < |run| && Alone(run[m], steps[m])
    requires WellConfigured(t, run[m]) && CoreInv(t, run[m]) && |run[n].log| < CLOCK_MODULUS
    requires OneWaiting(run[m])
    ensures OneWaiting(run[n])
  {
    assert StepAt(t, run, steps, m);
    OneWaitingStep(t, run[m], steps[m], run[n]);
  }

  lemma {:induction false} RunKeepsOneWaiting(t: Topology, run: seq<State>, steps: seq<Step>, n: nat)
    requires IsRun(t, run, steps) && n < |run| && Serialised(run, steps)
    requires WellConfigured(t, run[0]) && CoreInv(t, run[0]) && |run[n].log| < CLOCK_MODULUS
    ensures OneWaiting(run[n])
  {
    if n > 0 {
      LogGrows(t, run, steps, n - 1, n);
      RunKeepsOneWaiting(t, run, steps, n - 1);
      RunKeepsConfig(t, run, steps, n - 1);
      OneWaitingAt(t, run, steps, n - 1, n);
    }
  }

  // What makes a host forget the last entry of the log is then a reset.
  lemma SerialisedForgetsByReset(
      t: Topology, run: seq<State>, steps: seq<Step>, j: nat, n: nat, a: Address)
    requires IsRun(t, run, steps) && j < n < |run| && Serialised(run, steps)
    requires WellConfigured(t, run[0]) && CoreInv(t, run[0]) && |run[n].log| < CLOCK_MODULUS
    requires Forgets(run, steps, j, n, a, |run[n].log|)
    ensures BringsReset(steps[j], a)
  {
    var i :| 0 <= i < j && a in run[i].dests && BringsEntry(run[i], steps[i], a, |run[n].log|);
    CallsAreOld(t, run, steps, i, n, a);
    LogGrows(t, run, steps, i, j);
    LogGrows(t, run, steps, j, n);
    RunKeepsOneWaiting(t, run, steps, j);
  }

  ghost predicate ResetCame(steps: seq<Step>, n: nat, a: Address)
    requires n <= |steps|
  {
    exists j :: 0 <= j < n && BringsReset(steps[j], a)
  }

  ghost predicate ResetCameSince(steps: seq<Step>, i: nat, n: nat, a: Address)
    requires n <= |steps|
  {
    exists j :: i < j < n && BringsReset(steps[j], a)
  }

  // The last entry of the log came to `a` after the last reset that came to it.
  ghost predicate CameAfterResets(run: seq<State>, steps: seq<Step>, n: nat, a: Address)
    requires |run| == |steps| + 1 && n <= |steps|
  {
    exists i :: && 0 <= i < n && a in run[i].dests && BringsEntry(run[i], steps[i], a, |run[n].log|)
                && !ResetCameSince(steps, i, n, a)
  }

  // The last time an entry came.
  lemma {:induction false} LastTime(run: seq<State>, steps: seq<Step>, n: nat, a: Address, newest: nat) returns (i: nat)
    requires |run| == |steps| + 1 && n <= |steps| && Came(run, steps, n, a, newest)
    ensures i < n && a in run[i].dests && BringsEntry(run[i], steps[i], a, newest)
    ensures forall k :: i < k < n && a in run[k].dests ==> !BringsEntry(run[k], steps[k], a, newest)
  {
    if a in run[n - 1].dests && BringsEntry(run[n - 1], steps[n - 1], a, newest) {
      i := n - 1;
    } else {
      i := LastTime(run, steps, n - 1, a, newest);
    }
  }

  lemma OvertakenByReset(t: Topology, run: seq<State>, steps: seq<Step>, n: nat, a: Address)
    requires IsRun(t, run, steps) && n < |run| && Serialised(run, steps)
    requires WellConfigured(t, run[0]) && CoreInv(t, run[0]) && |run[n].log| < CLOCK_MODULUS
    requires a in run[0].dests && Came(run, steps, n, a, |run[n].log|)
    ensures Overtaken(run, steps, n, a) <==> !CameAfterResets(run, steps, n, a)
  {
    var newest := |run[n].log|;
    if Overtaken(run, steps, n, a) {
      var j :| 0 <= j < n && Forgets(run, steps, j, n, a, newest);
      SerialisedForgetsByReset(t, run, steps, j, n, a);
      forall i | 0 <= i < n && a in run[i].dests && BringsEntry(run[i], steps[i], a, newest)
        ensures ResetCameSince(steps, i, n, a)
      {
        assert i <= j;
        assert i != j;
      }
    } else {
      var i := LastTime(run, steps, n, a, newest);
      forall j | i < j < n ensures !BringsReset(steps[j], a) {
        RunKeepsHosts(t, run, steps, j);
        assert Came(run, steps, j, a, newest);
        assert !CameSince(run, steps, j, n, a, newest);
        assert !Forgets(run, steps, j, n, a, newest);
      }
      assert !ResetCameSince(steps, i, n, a);
    }
  }

  /** If requests are made one at a time, older replies do no harm. Whatever a destination held
      before, and in whatever order the calls arrive, it is where the source is, once nothing is
      in flight for it, if and only if something decisive came to it and the last entry came after
      the last reset if it came at all, or nothing decisive came and it knew already. */
  lemma SerialisedConvergesIff(t: Topology, run: seq<State>, steps: seq<Step>, n: nat, a: Address)
    requires KeepingRun(t, run, steps, a) && n < |run| && Serialised(run, steps)
    requires WellConfigured(t, run[0]) && Still(t, run[0], a) && |run[n].log| < CLOCK_MODULUS
    requires a in run[n].dests && NothingFor(run[n], a)
    ensures InSync(run[n], a) <==>
            if DecisiveBefore(run, steps, n, a)
            then Came(run, steps, n, a, |run[n].log|) ==> CameAfterResets(run, steps, n, a)
            else KnewIt(run, n, a)
  {
    ConvergesIff(t, run, steps, n, a);
    if Came(run, steps, n, a, |run[n].log|) {
      OvertakenByReset(t, run, steps, n, a);
    }
  }

  // A reply to a request of its own has come to `a`.
  ghost predicate HeardBack(steps: seq<Step>, n: nat, a: Address)
    requires n <= |steps|
  {
    exists i :: 0 <= i < n && steps[i] == DeliverReply(a)
  }

  // What is decisive for a host that began at clock `began`.
  lemma {:induction false} DecisiveComesFrom(t: Topology, run: seq<State>, steps: seq<Step>, n: nat, a: Address)
    requires KeepingRun(t, run, steps, a) && n < |run|
    requires CoreInv(t, run[0]) && |run[n].log| < CLOCK_MODULUS
    requires a in run[0].dests && DecisiveBefore(run, steps, n, a)
    ensures HeardBack(steps, n, a) || ResetCame(steps, n, a) || |run[n].log| > run[0].dests[a].node.clock
  {
    var m := n - 1;
    LogGrows(t, run, steps, m, n);
    RunRecovers(t, run, steps, m, a);
    DecisiveBeforeStep(run, steps, n, a);
    if DecisiveBefore(run, steps, m, a) {
      DecisiveComesFrom(t, run, steps, m, a);
    } else {
      RunKeepsCore(t, run, steps, m);
      assert StepAt(t, run, steps, m) && KeepsAt(t, run, steps, m, a);
      assert BringsReset(steps[m], a) ==> ResetCame(steps, n, a);
    }
  }

  // A host that heard back or has been brought a reset has had something decisive.
  lemma DecisiveIf(t: Topology, run: seq<State>, steps: seq<Step>, n: nat, a: Address)
    requires IsRun(t, run, steps) && n < |run| && a in run[0].dests
    requires HeardBack(steps, n, a) || ResetCame(steps, n, a)
    ensures DecisiveBefore(run, steps, n, a)
  {
    if HeardBack(steps, n, a) {
      var i :| 0 <= i < n && steps[i] == DeliverReply(a);
      RunKeepsHosts(t, run, steps, i);
      assert Decisive(run[i], steps[i], a);
    } else {
      var i :| 0 <= i < n && BringsReset(steps[i], a);
      RunKeepsHosts(t, run, steps, i);
      assert Decisive(run[i], steps[i], a);
    }
  }

  lemma OvertakenHasCome(run: seq<State>, steps: seq<Step>, n: nat, a: Address)
    requires |run| == |steps| + 1 && n <= |steps| && Overtaken(run, steps, n, a)
    ensures Came(run, steps, n, a, |run[n].log|)
  {
    var j :| 0 <= j < n && Forgets(run, steps, j, n, a, |run[n].log|);
  }

  // The newest entry is known to have come where it is held.
  lemma HeldHasCome(t: Topology, run: seq<State>, steps: seq<Step>, n: nat, a: Address)
    requires KeepingRun(t, run, steps, a) && n < |run|
    requires WellConfigured(t, run[0]) && Still(t, run[0], a) && |run[n].log| < CLOCK_MODULUS
    requires |run[n].log| > |run[0].log| && a in run[n].dests && NothingFor(run[n], a)
    ensures DecisiveBefore(run, steps, n, a) && !Overtaken(run, steps, n, a) ==> Came(run, steps, n, a, |run[n].log|)
    ensures !DecisiveBefore(run, steps, n, a) ==> |run[n].log| <= run[0].dests[a].node.clock
  {
    RunTracks(t, run, steps, n, a);
  }

  /** The restart of a source in terms of what can be seen from outside. The source starts, its
      resets may still be in flight or lost, and requests are made one at a time. Once nothing is
      in flight for a destination it is where the source is if and only if, when a reset has come
      to it, no request has been granted or the last entry came after the last reset; and when
      none has come, it has itself asked, or more requests have been granted than the clock it
      still holds from an earlier run, or what it holds happens to be what the source holds. */
  lemma RestartConvergesIff(t: Topology, run: seq<State>, steps: seq<Step>, n: nat, a: Address)
    requires KeepingRun(t, run, steps, a) && n < |run| && Serialised(run, steps)
    requires WellConfigured(t, run[0]) && SourceStart(t, run[0]) && a in run[0].dests
    requires |run[n].log| < CLOCK_MODULUS && a in run[n].dests && NothingFor(run[n], a)
    ensures InSync(run[n], a) <==>
            if ResetCame(steps, n, a) then
              run[n].log == [] || CameAfterResets(run, steps, n, a)
            else
              HeardBack(steps, n, a) || |run[n].log| > run[0].dests[a].node.clock || KnewIt(run, n, a)
  {
    SerialisedConvergesIff(t, run, steps, n, a);
    if HeardBack(steps, n, a) || ResetCame(steps, n, a) {
      DecisiveIf(t, run, steps, n, a);
    }
    if DecisiveBefore(run, steps, n, a) {
      DecisiveComesFrom(t, run, steps, n, a);
    }
    if run[n].log == [] {
      assert !Came(run, steps, n, a, |run[n].log|);
    } else {
      HeldHasCome(t, run, steps, n, a);
      ConvergesIff(t, run, steps, n, a);
      if !ResetCame(steps, n, a) && Came(run, steps, n, a, |run[n].log|) {
        var i :| 0 <= i < n && a in run[i].dests && BringsEntry(run[i], steps[i], a, |run[n].log|);
        assert !ResetCameSince(steps, i, n, a);
      }
    }
  }

  // --- The resets of a start ------------------------------------------------------------------

  ghost predicate ResetInNet(s: State, a: Address) {
    exists m :: m in s.net && m.to == a && m.event.clock == 0
  }

  lemma ResetStep(t: Topology, s: State, step: Step, s': State, a: Address)
    requires CoreInv(t, s) && Takes(t, s, step, s') && |s'.log| < CLOCK_MODULUS
    requires a in s.dests && a in t.keyOf
    ensures ResetInNet(s', a) ==> ResetInNet(s, a)
    ensures Keeps(t, s, step, a) && ResetInNet(s, a) ==> ResetInNet(s', a) || BringsReset(step, a)
    ensures BringsReset(step, a) ==> ResetInNet(s, a)
  {
    ResetsAreNotMade(t, s, step, s');
    if ResetInNet(s, a) && Keeps(t, s, step, a) && !BringsReset(step, a) {
      var m :| m in s.net && m.to == a && m.event.clock == 0;
      assert m in s'.net;
    }
  }

  lemma ResetsAreNotMade(t: Topology, s: State, step: Step, s': State)
    requires CoreInv(t, s) && Takes(t, s, step, s') && |s'.log| < CLOCK_MODULUS
    ensures forall m :: m in s'.net && m.event.clock == 0 ==> m in s.net
    ensures step.Process? || step.Stray? ==> s.net <= s'.net
  {
    if step.Process? || step.Stray? {
      var req := if step.Stray? then step.req else ActivateEvent(t.keyOf[step.a], s.dests[step.a].rpc.activate);
      GrantedStep(t, s, req);
      if Grant(t.source, req).Ok? {
        var e := ActiveEvent(Grant(t.source, req).value, |s.log| + 1);
        forall m | m in s'.net && m.event.clock == 0 ensures m in s.net {
          assert m !in Broadcasts(t.source.peers, e);
        }
      }
    }
  }

  // A reset in flight to `a` comes sooner or later.
  lemma {:induction false} ResetArrives(
      t: Topology, run: seq<State>, steps: seq<Step>, n: nat, a: Address)
    requires KeepingRun(t, run, steps, a) && n < |run|
    requires CoreInv(t, run[0]) && |run[n].log| < CLOCK_MODULUS
    requires a in run[0].dests && ResetInNet(run[0], a)
    ensures ResetInNet(run[n], a) || ResetCame(steps, n, a)
  {
    if n > 0 {
      var m := n - 1;
      LogGrows(t, run, steps, m, n);
      ResetArrives(t, run, steps, m, a);
      RunKeepsCore(t, run, steps, m);
      assert StepAt(t, run, steps, m) && KeepsAt(t, run, steps, m, a);
      ResetStep(t, run[m], steps[m], run[n], a);
      if ResetCame(steps, m, a) {
        var j :| 0 <= j < m && BringsReset(steps[j], a);
        assert ResetCame(steps, n, a);
      }
    }
  }

  // Once no reset is in flight to `a`, none comes.
  lemma {:induction false} NoResetStays(
      t: Topology, run: seq<State>, steps: seq<Step>, m: nat, n: nat, a: Address)
    requires IsRun(t, run, steps) && m <= n < |run|
    requires CoreInv(t, run[0]) && |run[n].log| < CLOCK_MODULUS
    requires a in run[0].dests && !ResetInNet(run[m], a)
    ensures !ResetInNet(run[n], a)
    ensures forall j :: m <= j < n ==> !BringsReset(steps[j], a)
    decreases n - m
  {
    if m < n {
      LogGrows(t, run, steps, n - 1, n);
      NoResetStays(t, run, steps, m, n - 1, a);
      RunKeepsCore(t, run, steps, n - 1);
      RunKeepsHosts(t, run, steps, n - 1);
      assert StepAt(t, run, steps, n - 1);
      ResetStep(t, run[n - 1], steps[n - 1], run[n], a);
    }
  }

  lemma {:induction false} ResetIsSent(peers: seq<PeerConfig>, host: Key, p: PeerConfig)
    requires p in peers && p.scrollDestination
    ensures Broadcast(p.address, ActiveEvent(host, 0)) in Resets(peers, host)
  {
    if p != peers[0] {
      ResetIsSent(peers[1..], host, p);
    }
  }

  lemma StartupSendsAll(t: Topology, s: State, a: Address)
    requires Startup(t, s) && WellConfigured(t, s) && a in s.dests
    ensures ResetInNet(s, a)
  {
    var p :| p in t.source.peers && DestEntry(t, p, a);
    ResetIsSent(t.source.peers, t.source.publicKey, p);
    assert Broadcast(p.address, ActiveEvent(t.source.publicKey, 0)) in s.net;
  }

  /** From the state the program starts in, with all resets in flight: requests are made one at a
      time and nothing for a destination is lost. Once nothing is in flight for it, it is where
      the source is if and only if nothing was granted or the last entry came to it after its last
      reset, whatever it held before. */
  lemma StartupConvergesIff(t: Topology, run: seq<State>, steps: seq<Step>, n: nat, a: Address)
    requires KeepingRun(t, run, steps, a) && n < |run| && Serialised(run, steps)
    requires WellConfigured(t, run[0]) && Startup(t, run[0]) && a in run[0].dests
    requires |run[n].log| < CLOCK_MODULUS && a in run[n].dests && NothingFor(run[n], a)
    ensures InSync(run[n], a) <==> run[n].log == [] || CameAfterResets(run, steps, n, a)
  {
    RestartConvergesIff(t, run, steps, n, a);
    StartupSendsAll(t, run[0], a);
    ResetArrives(t, run, steps, n, a);
  }

  /** So every destination whose reset comes before the last request is handled ends where the
      source is. */
  lemma DrainedConverges(t: Topology, run: seq<State>, steps: seq<Step>, m: nat, n: nat, a: Address)
    requires KeepingRun(t, run, steps, a) && m < n < |run| && Serialised(run, steps)
    requires WellConfigured(t, run[0]) && Startup(t, run[0]) && a in run[0].dests
    requires |run[n].log| < CLOCK_MODULUS && a in run[n].dests && NothingFor(run[n], a)
    requires |run[m].log| < |run[n].log| && !ResetInNet(run[m], a)
    ensures InSync(run[n], a)
  {
    RunKeepsConfig(t, run, steps, n);
    NoResetStays(t, run, steps, m, n, a);
    StartupConvergesIff(t, run, steps, n, a);
    StartupSendsAll(t, run[0], a);
    LogGrows(t, run, steps, m, n);
    ResetArrives(t, run, steps, m, a);
    DecisiveIf(t, run, steps, m, a);
    var k :| 0 <= k < m && a in run[k].dests && Decisive(run[k], steps[k], a);
    assert DecisiveBefore(run, steps, n, a);
    HeldHasCome(t, run, steps, n, a);
    forall i | 0 <= i < n && a in run[i].dests && BringsEntry(run[i], steps[i], a, |run[n].log|)
      ensures !ResetCameSince(steps, i, n, a)
    {
      CallsAreOld(t, run, steps, i, n, a);
      if i < m {
        LogGrows(t, run, steps, i, m);
      }
      assert i >= m;
    }
    if Overtaken(run, steps, n, a) {
      OvertakenHasCome(run, steps, n, a);
    }
    var i :| 0 <= i < n && a in run[i].dests && BringsEntry(run[i], steps[i], a, |run[n].log|);
    assert !ResetCameSince(steps, i, n, a);
  }

  /** If a destination holds some entry of the current log, or nothing, and no reset is in flight
      to it, one granted request brings it to where the source is, and after that it is there
      whenever nothing is in flight for it. */
  lemma SerialisedConverges(t: Topology, run: seq<State>, steps: seq<Step>, n: nat, a: Address)
    requires KeepingRun(t, run, steps, a) && n < |run| && Serialised(run, steps)
    requires WellConfigured(t, run[0]) && CoreInv(t, run[0]) && a in run[0].dests
    requires NothingFor(run[0], a) && DestAgrees(t, run[0], a)
    requires |run[n].log| < CLOCK_MODULUS && a in run[n].dests && NothingFor(run[n], a)
    ensures |run[n].log| > |run[0].log| || InSync(run[0], a) ==> InSync(run[n], a)
  {
    ConvergesFromRestIff(t, run, steps, n, a);
    NoResetStays(t, run, steps, 0, n, a);
    forall j | 0 <= j < n ensures !Forgets(run, steps, j, n, a, |run[n].log|) {
      if Forgets(run, steps, j, n, a, |run[n].log|) {
        SerialisedForgetsByReset(t, run, steps, j, n, a);
      }
    }
  }
}
