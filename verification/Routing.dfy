/** The active-peer protocol and the scroll pipeline of the source together: the dispatcher reads
    the `ActiveState` the protocol writes (`src/transport/scroll.rs:91-101`,
    `src/transport/active.rs:60-81`). Says to whom events go in terms of the log, and what a split
    means for the host that has lost it. */
module Routing {
  import opened Wrappers
  import opened Settings
  import opened Active
  import opened Focus
  import opened Scroll
  import P = Protocol
  import C = Convergence
  import Q = Pipeline
  import S = SplitBrain

  datatype Joint = Joint(control: P.State, flow: Q.Sys)

  datatype Step = Control(c: P.Step) | Flow(f: Q.Step)

  // A step of the protocol changes the active key the dispatcher reads, and a step of the
  // pipeline changes nothing the protocol sees.
  ghost predicate Takes(t: P.Topology, s: Joint, step: Step, s': Joint) {
    match step
    case Control(c) =>
      P.Takes(t, s.control, c, s'.control) && s'.flow == s.flow.(active := s'.control.source.peer)
    case Flow(f) =>
      !f.ActiveChanges? && Q.Takes(s.flow, f, s'.flow) && s'.control == s.control
  }

  ghost predicate StepAt(t: P.Topology, run: seq<Joint>, steps: seq<Step>, i: nat)
    requires |run| == |steps| + 1 && i < |steps|
  {
    Takes(t, run[i], steps[i], run[i + 1])
  }

  ghost predicate IsRun(t: P.Topology, run: seq<Joint>, steps: seq<Step>) {
    && |run| == |steps| + 1
    && forall i :: 0 <= i < |steps| ==> StepAt(t, run, steps, i)
  }

  // Everything has just started, and the pipeline has one connection for each of the keys.
  ghost predicate Starts(t: P.Topology, keys: seq<Key>, s: Joint) {
    P.ColdStart(t, s.control) && s.flow == Q.Initial(keys)
  }

  // --- Events follow the log ------------------------------------------------------------------

  // The pipeline's side of a joint run is a run of the pipeline.
  ghost function FlowStep(step: Step, s': Joint): Q.Step {
    if step.Flow? then step.f else Q.ActiveChanges(s'.control.source.peer)
  }

  ghost function Flows(run: seq<Joint>): (flows: seq<Q.Sys>)
    ensures |flows| == |run| && forall i :: 0 <= i < |run| ==> flows[i] == run[i].flow
  {
    seq(|run|, i requires 0 <= i < |run| => run[i].flow)
  }

  ghost function FlowSteps(run: seq<Joint>, steps: seq<Step>): (fs: seq<Q.Step>)
    requires |run| == |steps| + 1
    ensures |fs| == |steps| && forall i :: 0 <= i < |steps| ==> fs[i] == FlowStep(steps[i], run[i + 1])
  {
    seq(|steps|, i requires 0 <= i < |steps| => FlowStep(steps[i], run[i + 1]))
  }

  lemma FlowsRun(t: P.Topology, keys: seq<Key>, run: seq<Joint>, steps: seq<Step>)
    requires IsRun(t, run, steps) && run[0].flow == Q.Initial(keys)
    ensures Q.IsRun(keys, Flows(run), FlowSteps(run, steps))
  {
    forall i | 0 <= i < |steps| ensures Q.StepAt(Flows(run), FlowSteps(run, steps), i) {
      assert StepAt(t, run, steps, i);
    }
  }

  // The protocol's side stays as it should, and the dispatcher reads what the source holds.
  ghost predicate Joined(t: P.Topology, s: Joint) {
    P.Inv(t, s.control) && s.flow.active == s.control.source.peer
  }

  lemma LogOnlyGrows(t: P.Topology, s: Joint, step: Step, s': Joint)
    requires Takes(t, s, step, s')
    ensures |s.control.log| <= |s'.control.log|
  {
    if step.Control? {
      P.LogGrowsStep(t, s.control, step.c, s'.control);
    }
  }

  lemma {:induction false} RunKeepsJoined(t: P.Topology, run: seq<Joint>, steps: seq<Step>, n: nat)
    requires IsRun(t, run, steps) && n < |run|
    requires Joined(t, run[0]) && |run[n].control.log| < CLOCK_MODULUS
    ensures Joined(t, run[n])
  {
    if n > 0 {
      assert StepAt(t, run, steps, n - 1);
      LogOnlyGrows(t, run[n - 1], steps[n - 1], run[n]);
      RunKeepsJoined(t, run, steps, n - 1);
      JoinedStep(t, run[n - 1], steps[n - 1], run[n]);
    }
  }

  lemma JoinedStep(t: P.Topology, s: Joint, step: Step, s': Joint)
    requires Joined(t, s) && Takes(t, s, step, s') && |s'.control.log| < CLOCK_MODULUS
    ensures Joined(t, s')
  {
    if step.Control? {
      P.InvStep(t, s.control, step.c, s'.control);
    }
  }

  lemma {:induction false} LogsGrow(t: P.Topology, run: seq<Joint>, steps: seq<Step>, i: nat, j: nat)
    requires IsRun(t, run, steps) && i <= j < |run|
    ensures |run[i].control.log| <= |run[j].control.log|
    decreases j - i
  {
    if i < j {
      assert StepAt(t, run, steps, i);
      LogOnlyGrows(t, run[i], steps[i], run[i + 1]);
      LogsGrow(t, run, steps, i + 1, j);
    }
  }

  lemma FlowDispatches(
      t: P.Topology, keys: seq<Key>, run: seq<Joint>, steps: seq<Step>, n: nat, i: nat, e: nat) returns (m: nat)
    requires IsRun(t, run, steps) && run[0].flow == Q.Initial(keys) && Q.DistinctPeers(keys)
    requires n < |run| && i < |keys| && i < |run[n].flow.peers|
    requires e in Q.Line(run[n].flow.peers[i]) || e in run[n].flow.peers[i].lost
    ensures m < n && Q.DispatchesTo(run[m].flow, FlowStep(steps[m], run[m + 1]), e, keys[i])
  {
    var flows, fs := Flows(run), FlowSteps(run, steps);
    FlowsRun(t, keys, run, steps);
    assert flows[n] == run[n].flow;
    Q.RoutedWhileActive(keys, flows, fs, n, i, e);
    m :| 0 <= m < n && Q.DispatchesTo(flows[m], fs[m], e, keys[i]);
    assert flows[m] == run[m].flow && fs[m] == FlowStep(steps[m], run[m + 1]);
  }

  /** Events follow the log: whatever is on its way to a peer, was sent to it, or was lost on it,
      the dispatcher took at a moment when the newest entry of the source's log named that peer,
      the entry every destination at that clock agrees on. */
  lemma RoutedByTheLog(
      t: P.Topology, keys: seq<Key>, run: seq<Joint>, steps: seq<Step>, n: nat, i: nat, e: nat)
    requires IsRun(t, run, steps) && Starts(t, keys, run[0]) && Q.DistinctPeers(keys)
    requires n < |run| && |run[n].control.log| < CLOCK_MODULUS
    requires i < |keys| && i < |run[n].flow.peers|
    requires e in Q.Line(run[n].flow.peers[i]) || e in run[n].flow.peers[i].lost
    ensures exists m :: 0 <= m < n && Named(run[m], steps[m], e, keys[i])
  {
    var m := FlowDispatches(t, keys, run, steps, n, i, e);
    LogsGrow(t, run, steps, m, n);
    RunKeepsJoined(t, run, steps, m);
  }

  // The dispatcher takes event e while the newest entry of the log is `key`.
  ghost predicate Named(s: Joint, step: Step, e: nat, key: Key) {
    && step == Flow(Q.DispatchStep) && s.flow.main != [] && s.flow.main[0] == e
    && s.control.log != [] && s.control.log[|s.control.log| - 1] == key
  }

  // --- The host that has lost a split ---------------------------------------------------------

  const INJECT_CAPACITY: nat := 32

  // The threads of the host at one address: the received events its sender has not taken yet, the
  // requests its request loop has not taken yet, and the timestamps of its blur machine.
  datatype Side = Side(inbox: seq<nat>, requests: seq<RequestEvent>, focus: FocusState)

  datatype World = World(joint: Joint, side: Side)

  datatype Event =
    | Global(step: Step)
    | Record(wheel: bool, now: nat)  // a blocker processes a record of the local device
    | Inject(now: nat)               // the sender takes a received event
    | Skip                           // the request loop takes a request and skips it

  function RequestOf(activate: bool): RequestEvent {
    if activate then Activate else Deactivate
  }

  // What a step of the whole system makes of the side of the host at `a`, peer i of the pipeline.
  ghost predicate SideAfter(w: World, step: Step, w': World, a: Address, i: nat) {
    match step
    case Control(Send(b, activate)) =>
      if b == a then
        && w.side.requests != [] && w.side.requests[0] == RequestOf(activate)
        && w'.side == w.side.(requests := w.side.requests[1..])
      else w'.side == w.side
    case Flow(ShipStep(k)) =>
      if k == i && i < |w.joint.flow.peers| && w.joint.flow.peers[i].stream != [] && |w.side.inbox| < INJECT_CAPACITY
      then w'.side == w.side.(inbox := w.side.inbox + [w.joint.flow.peers[i].stream[0]])
      else w'.side == w.side
    case _ => w'.side == w.side
  }

  // The effects are those of `ScrollBlocker.ProcessEvent`, of `ScrollSender.Send` and of
  // `Transport.NextRequest`.
  ghost predicate Happens(t: P.Topology, w: World, e: Event, w': World, a: Address, i: nat) {
    && a in w.joint.control.dests && a in t.keyOf
    && var node := w.joint.control.dests[a].node;
       match e
       case Global(step) => Takes(t, w.joint, step, w'.joint) && SideAfter(w, step, w', a, i)
       case Record(wheel, now) =>
         && w'.joint == w.joint && now < U64
         && w'.side == w.side.(
              requests := AfterRecord(w.side.requests, node.hostActive),
              focus := if wheel then w.side.focus.(lastScroll := now) else w.side.focus)
       case Inject(now) =>
         && w'.joint == w.joint && now < U64 && w.side.inbox != []
         && w.side.focus.lastScroll < U64 && w.side.focus.lastBlur < U64
         && var j := Judge(w.side.focus, now);
            w'.side == Side(w.side.inbox[1..], AfterSend(w.side.requests, j.1, node.hostActive), j.0)
       case Skip =>
         && w'.joint == w.joint && w.side.requests != [] && w.joint.control.dests[a].rpc.Idle?
         && !ShouldSend(t.keyOf[a], node, w.side.requests[0].Activate?)
         && w'.side == w.side.(requests := w.side.requests[1..])
  }

  ghost predicate EventAt(t: P.Topology, run: seq<World>, events: seq<Event>, n: nat, a: Address, i: nat)
    requires |run| == |events| + 1 && n < |events|
  {
    && Happens(t, run[n], events[n], run[n + 1], a, i)
    && (events[n].Global? && events[n].step.Control? ==> C.Keeps(t, run[n].joint.control, events[n].step.c, a))
  }

  // A run of the whole system that loses nothing that is for the host at `a`.
  ghost predicate IsWorldRun(t: P.Topology, run: seq<World>, events: seq<Event>, a: Address, i: nat) {
    && |run| == |events| + 1
    && forall n :: 0 <= n < |events| ==> EventAt(t, run, events, n, a, i)
  }

  // The host at `a`, peer i of the pipeline, believes that it is active but the source does not;
  // nothing is in flight for it, neither calls nor events, and nothing that it was told before
  // waits in its queues.
  ghost predicate Stranded(t: P.Topology, w: World, a: Address, i: nat) {
    var s := w.joint;
    && P.CoreInv(t, s.control) && C.WellConfigured(t, s.control)
    && a in s.control.dests && C.NothingFor(s.control, a)
    && s.control.dests[a].node.peer == Some(t.keyOf[a]) && s.control.dests[a].node.hostActive
    && s.control.source.peer != Some(t.keyOf[a])
    && s.flow.active == s.control.source.peer
    && i < |s.flow.peers| && s.flow.peers[i].key == t.keyOf[a]
    && Q.Line(s.flow.peers[i]) == s.flow.peers[i].wire
    && w.side.inbox == [] && Deactivate !in w.side.requests
  }

  // Nothing about the host at `a` has changed, and nothing was granted.
  ghost predicate Unmoved(w: World, w': World, a: Address, i: nat) {
    var s, s' := w.joint, w'.joint;
    && a in s.control.dests && a in s'.control.dests && s'.control.dests[a] == s.control.dests[a]
    && i < |s.flow.peers| == |s'.flow.peers|
    && s'.flow.peers[i].wire == s.flow.peers[i].wire
    && s'.control.log == s.control.log
  }

  // An event that brings the host at `a` a scroll event, injects one, or sends a request.
  ghost predicate Moves(e: Event, a: Address, i: nat) {
    || e == Global(Flow(Q.ShipStep(i)))
    || e.Inject?
    || e == Global(Control(P.Send(a, true))) || e == Global(Control(P.Send(a, false)))
  }

  // The source grants a request of another host, or one whose reply reaches nobody.
  ghost predicate GrantsAnother(w: World, e: Event, w': World, a: Address) {
    && e.Global? && e.step.Control? && ((e.step.c.Process? && e.step.c.a != a) || e.step.c.Stray?)
    && |w'.joint.control.log| > |w.joint.control.log|
  }

  lemma StrandedFlow(t: P.Topology, w: World, f: Q.Step, w': World, a: Address, i: nat)
    requires Stranded(t, w, a, i) && Happens(t, w, Global(Flow(f)), w', a, i)
    ensures f != Q.ShipStep(i)
    ensures Stranded(t, w', a, i) && Unmoved(w, w', a, i)
  {
    var s, s' := w.joint.flow, w'.joint.flow;
    var p := s.peers[i];
    assert |Q.Line(p)| == |p.wire| + |p.stream| + |Q.HeldSeq(p)| + |p.queue|;
    assert p.stream == [] && p.held == None && p.queue == [];
    if f.DispatchStep? && s.active.Some? {
      Q.OfferAllFacts(s.peers, s.active.value, s.main[0]);
    }
    assert Q.Line(s'.peers[i]) == s'.peers[i].wire;
    assert w'.side == w.side;
  }

  // A step of the protocol that grants nothing leaves the host at `a` alone.
  lemma ControlLeaves(t: P.Topology, s: P.State, c: P.Step, s': P.State, a: Address)
    requires P.CoreInv(t, s) && C.WellConfigured(t, s) && P.Takes(t, s, c, s') && |s'.log| < CLOCK_MODULUS
    requires a in s.dests && C.NothingFor(s, a) && C.Keeps(t, s, c, a)
    requires s.dests[a].node.peer == Some(t.keyOf[a]) && c != P.Send(a, false)
    ensures c != P.Send(a, true)
    ensures C.Grants(s, c, s') ==> c != P.Process(a)
    ensures !C.Grants(s, c, s') ==>
              && P.CoreInv(t, s') && C.WellConfigured(t, s')
              && s'.log == s.log && s'.source == s.source
              && s'.dests[a] == s.dests[a] && C.NothingFor(s', a)
  {
    C.GrantsOrNot(t, s, c, s');
    P.CoreInvStep(t, s, c, s');
    assert s'.dests[a] == P.DestAfter(t, s, c, a);
  }

  lemma StrandedControl(t: P.Topology, w: World, c: P.Step, w': World, a: Address, i: nat)
    requires Stranded(t, w, a, i) && Happens(t, w, Global(Control(c)), w', a, i)
    requires C.Keeps(t, w.joint.control, c, a) && |w'.joint.control.log| < CLOCK_MODULUS
    ensures GrantsAnother(w, Global(Control(c)), w', a)
            || (Stranded(t, w', a, i) && Unmoved(w, w', a, i) && !Moves(Global(Control(c)), a, i))
  {
    assert c != P.Send(a, false);
    ControlLeaves(t, w.joint.control, c, w'.joint.control, a);
    if !C.Grants(w.joint.control, c, w'.joint.control) {
      assert w'.side == w.side;
    }
  }

  lemma StrandedStep(t: P.Topology, w: World, e: Event, w': World, a: Address, i: nat)
    requires Stranded(t, w, a, i) && Happens(t, w, e, w', a, i) && |w'.joint.control.log| < CLOCK_MODULUS
    requires e.Global? && e.step.Control? ==> C.Keeps(t, w.joint.control, e.step.c, a)
    ensures GrantsAnother(w, e, w', a) || (Stranded(t, w', a, i) && Unmoved(w, w', a, i) && !Moves(e, a, i))
  {
    if !e.Global? {
    } else {
      match e.step
      case Flow(f) => StrandedFlow(t, w, f, w', a, i);
      case Control(c) => StrandedControl(t, w, c, w', a, i);
    }
  }

  // After n events the host at `a` is where it was: it has got no scroll event, has injected none
  // and has sent no request.
  ghost predicate CutOffUntil(t: P.Topology, run: seq<World>, events: seq<Event>, n: nat, a: Address, i: nat)
    requires |run| == |events| + 1 && n <= |events|
  {
    && Stranded(t, run[n], a, i)
    && Unmoved(run[0], run[n], a, i)
    && forall m :: 0 <= m < n ==> !Moves(events[m], a, i)
  }

  ghost predicate GrantedBefore(run: seq<World>, events: seq<Event>, n: nat, a: Address)
    requires |run| == |events| + 1 && n <= |events|
  {
    exists m :: 0 <= m < n && GrantsAnother(run[m], events[m], run[m + 1], a)
  }

  lemma WorldLogGrows(t: P.Topology, w: World, e: Event, w': World, a: Address, i: nat)
    requires Happens(t, w, e, w', a, i)
    ensures |w.joint.control.log| <= |w'.joint.control.log|
  {
    if e.Global? {
      LogOnlyGrows(t, w.joint, e.step, w'.joint);
    }
  }

  /** The host that has lost a split is cut off. The source routes it no event, so its sender
      injects none and asks for no deactivation; its blockers ask for nothing while it believes
      that it is active, and its request loop skips what is left. So it keeps its state until a
      request of another host is granted, and only such a grant ends it. */
  lemma {:induction false} CutOff(t: P.Topology, run: seq<World>, events: seq<Event>, n: nat, a: Address, i: nat)
    requires IsWorldRun(t, run, events, a, i) && n < |run|
    requires Stranded(t, run[0], a, i) && |run[n].joint.control.log| < CLOCK_MODULUS
    ensures CutOffUntil(t, run, events, n, a, i) || GrantedBefore(run, events, n, a)
  {
    if n > 0 {
      var m := n - 1;
      assert EventAt(t, run, events, m, a, i);
      WorldLogGrows(t, run[m], events[m], run[n], a, i);
      CutOff(t, run, events, m, a, i);
      if CutOffUntil(t, run, events, m, a, i) {
        StrandedStep(t, run[m], events[m], run[n], a, i);
      }
    }
  }

  /** The host that lost the split of `SplitBrain.BothActive` is in exactly this position. */
  lemma SplitStrands(h: S.Hosts, flow: Q.Sys, side: Side, i: nat)
    requires h.Distinct()
    requires flow.active == Some(h.kb) && i < |flow.peers| && flow.peers[i].key == h.ka
    requires Q.Line(flow.peers[i]) == flow.peers[i].wire
    requires side.inbox == [] && Deactivate !in side.requests
    ensures Stranded(h.Wiring(), World(Joint(h.Last(), flow), side), h.a, i)
  {
    var run, steps := S.BothActive(h);
    P.RunKeepsInv(h.Wiring(), run, steps, |steps|);
    S.Configured(h, h.Last());
  }
}
