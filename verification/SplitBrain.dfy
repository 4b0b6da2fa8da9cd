/** A run without any loss after which two destinations both believe they are active: the
    serialisation hypothesis of `Convergence.SerialisedConverges` cannot be dropped. */
module SplitBrain {
  import opened Wrappers
  import opened Settings
  import opened Active
  import opened Protocol
  import opened Convergence

  // Two destinations, at addresses a and b with keys ka and kb, and a source with key ks.
  datatype Hosts = Hosts(ks: Key, a: Address, ka: Key, b: Address, kb: Key) {
    ghost predicate Distinct() {
      a != b && ka != kb && ka != ks && kb != ks
    }

    ghost function Wiring(): Topology {
      Topology(
        Config(ks, true, false, [
          PeerConfig(a, ka, false, false, false, true),
          PeerConfig(b, kb, false, false, false, true)]),
        map[a := ka, b := kb])
    }

    // Both ask, both are answered, and the broadcast of the second answer overtakes the reply
    // that carries the first.
    ghost function Steps(): seq<Step> {
      [Send(a, true), Send(b, true), Process(a), Process(b),
       Deliver(ToA()), DeliverReply(a), DeliverReply(b), Deliver(ToB())]
    }

    ghost function First(): ActiveEvent { ActiveEvent(ka, 1) }
    ghost function Second(): ActiveEvent { ActiveEvent(kb, 2) }
    ghost function ToB(): Broadcast { Broadcast(b, First()) }
    ghost function ToA(): Broadcast { Broadcast(a, Second()) }

    ghost function Both(da: Dest, db: Dest): map<Address, Dest> { map[a := da, b := db] }

    ghost function Idles(): Dest { Dest(FRESH, Idle) }
    ghost function Asks(): Dest { Dest(FRESH, Asking(true, 0)) }
    ghost function ReplyA(): Rpc { Answered(First(), 0) }
    ghost function ReplyB(): Dest { Dest(FRESH, Answered(Second(), 0)) }
    ghost function Lost(): Dest { Dest(SetActive(ka, First()), Idle) }
    ghost function Won(): Dest { Dest(SetActive(kb, Second()), Idle) }
    ghost function OnA(): Node { SetActive(ks, First()) }
    ghost function OnB(): Node { SetActive(ks, Second()) }

    ghost function S0(): State { State(FRESH, [], Both(Idles(), Idles()), multiset{}) }
    ghost function S1(): State { State(FRESH, [], Both(Asks(), Idles()), multiset{}) }
    ghost function S2(): State { State(FRESH, [], Both(Asks(), Asks()), multiset{}) }
    ghost function S3(): State { State(OnA(), [ka], Both(Dest(FRESH, ReplyA()), Asks()), multiset{ToB()}) }
    ghost function S4(): State {
      State(OnB(), [ka, kb], Both(Dest(FRESH, ReplyA()), ReplyB()), multiset{ToB(), ToA()})
    }
    ghost function S5(): State {
      State(OnB(), [ka, kb], Both(Dest(SetActive(ka, Second()), ReplyA()), ReplyB()), multiset{ToB()})
    }
    ghost function S6(): State { State(OnB(), [ka, kb], Both(Lost(), ReplyB()), multiset{ToB()}) }
    ghost function S7(): State { State(OnB(), [ka, kb], Both(Lost(), Won()), multiset{ToB()}) }
    ghost function S8(): State { State(OnB(), [ka, kb], Both(Lost(), Won()), multiset{}) }

    ghost function Last(): State { S8() }

    ghost function Run(): seq<State> { [S0(), S1(), S2(), S3(), S4(), S5(), S6(), S7(), S8()] }
  }

  lemma Calls(h: Hosts, e: ActiveEvent)
    requires h.Distinct() && (e.peer == h.ka || e.peer == h.kb)
    ensures Broadcasts(h.Wiring().source.peers, e) == [Broadcast(if e.peer == h.ka then h.b else h.a, e)]
  {
    var peers := h.Wiring().source.peers;
    assert peers[1..][1..] == [] && Broadcasts(peers[1..][1..], e) == [];
    assert Broadcasts(peers[1..], e) == if e.peer == h.kb then [] else [Broadcast(h.b, e)];
  }

  lemma IsGranted(h: Hosts, req: ActivateEvent)
    requires h.Distinct() && req.state && (req.peer == h.ka || req.peer == h.kb)
    ensures Grant(h.Wiring().source, req) == Ok(req.peer)
  {
    var peers := h.Wiring().source.peers;
    assert peers[1..][0].publicKey == h.kb;
  }

  lemma GrantsAsker(h: Hosts, s: State, req: ActivateEvent)
    requires h.Distinct() && req.state && (req.peer == h.ka || req.peer == h.kb)
    requires s.source.clock + 1 < CLOCK_MODULUS
    ensures var t := h.Wiring();
            var e := ActiveEvent(req.peer, s.source.clock + 1);
            && Grant(t.source, req) == Ok(req.peer)
            && Granted(t, s, req) == s.(
                 source := SetActive(h.ks, e),
                 log := s.log + [req.peer],
                 net := s.net + multiset{Broadcast(if req.peer == h.ka then h.b else h.a, e)})
  {
    IsGranted(h, req);
    EntryClockIsZeroIffWrapped(h.ks, s.source, req.peer);
    Calls(h, ActiveEvent(req.peer, s.source.clock + 1));
  }

  lemma FirstGranted(h: Hosts)
    requires h.Distinct()
    ensures StepAt(h.Wiring(), h.Run(), h.Steps(), 2)
  {
    GrantsAsker(h, h.S2(), ActivateEvent(h.ka, true));
    assert h.S2().net + multiset{h.ToB()} == h.S3().net;
  }

  lemma SecondGranted(h: Hosts)
    requires h.Distinct()
    ensures StepAt(h.Wiring(), h.Run(), h.Steps(), 3)
  {
    GrantsAsker(h, h.S3(), ActivateEvent(h.kb, true));
    assert h.S3().net + multiset{h.ToA()} == h.S4().net;
  }

  lemma RequestByA(h: Hosts)
    requires h.Distinct()
    ensures StepAt(h.Wiring(), h.Run(), h.Steps(), 0)
  {
  }

  lemma RequestByB(h: Hosts)
    requires h.Distinct()
    ensures StepAt(h.Wiring(), h.Run(), h.Steps(), 1)
  {
  }

  lemma BroadcastToA(h: Hosts)
    requires h.Distinct()
    ensures StepAt(h.Wiring(), h.Run(), h.Steps(), 4)
  {
    assert h.S4().net - multiset{h.ToA()} == h.S5().net;
  }

  lemma ReplyToA(h: Hosts)
    requires h.Distinct()
    ensures StepAt(h.Wiring(), h.Run(), h.Steps(), 5)
  {
  }

  lemma ReplyToB(h: Hosts)
    requires h.Distinct()
    ensures StepAt(h.Wiring(), h.Run(), h.Steps(), 6)
  {
  }

  lemma BroadcastToB(h: Hosts)
    requires h.Distinct()
    ensures StepAt(h.Wiring(), h.Run(), h.Steps(), 7)
  {
    assert h.S7().net - multiset{h.ToB()} == h.S8().net;
  }

  lemma SplitStep(h: Hosts, i: nat)
    requires h.Distinct() && i < 8
    ensures StepAt(h.Wiring(), h.Run(), h.Steps(), i)
  {
    match i {
      case 0 => RequestByA(h);
      case 1 => RequestByB(h);
      case 2 => FirstGranted(h);
      case 3 => SecondGranted(h);
      case 4 => BroadcastToA(h);
      case 5 => ReplyToA(h);
      case 6 => ReplyToB(h);
      case 7 => BroadcastToB(h);
    }
  }

  lemma SplitRun(h: Hosts)
    requires h.Distinct()
    ensures LosslessRun(h.Wiring(), h.Run(), h.Steps())
  {
    forall i | 0 <= i < 8 ensures StepAt(h.Wiring(), h.Run(), h.Steps(), i) {
      SplitStep(h, i);
    }
  }

  lemma Configured(h: Hosts, s: State)
    requires h.Distinct() && s.dests.Keys == {h.a, h.b}
    ensures WellConfigured(h.Wiring(), s)
  {
    var t := h.Wiring();
    forall x | x in s.dests ensures exists p :: p in t.source.peers && DestEntry(t, p, x) {
      assert DestEntry(t, t.source.peers[if x == h.a then 0 else 1], x);
    }
  }

  lemma StartsCold(h: Hosts)
    requires h.Distinct()
    ensures ColdStart(h.Wiring(), h.S0()) && AtRest(h.Wiring(), h.S0())
  {
  }

  lemma OnlyDeactivationsAreLeft(h: Hosts, step: Step)
    requires h.Distinct() && Lossless(step) && Enabled(h.Wiring(), h.S8(), step)
    ensures step.Send? && !step.activate
  {
  }

  /** For any two destinations: a lossless run from a cold start, over a correct configuration,
      that ends with nothing in flight and both of them active. The request loop of neither
      would send another activation, so only a deactivation can end the split. */
  lemma BothActive(h: Hosts) returns (run: seq<State>, steps: seq<Step>)
    requires h.Distinct()
    ensures LosslessRun(h.Wiring(), run, steps) && steps == h.Steps()
    ensures ColdStart(h.Wiring(), run[0]) && WellConfigured(h.Wiring(), run[0]) && AtRest(h.Wiring(), run[0])
    ensures run[|steps|] == h.Last() && Quiescent(h.Last())
    ensures h.Last().dests[h.a].node.hostActive && h.Last().dests[h.b].node.hostActive
    ensures !InSync(h.Last(), h.a)
    ensures forall step :: Lossless(step) && Enabled(h.Wiring(), h.Last(), step) ==>
              step.Send? && !step.activate
  {
    run, steps := h.Run(), h.Steps();
    SplitRun(h);
    StartsCold(h);
    Configured(h, run[0]);
    forall step | Lossless(step) && Enabled(h.Wiring(), h.Last(), step)
      ensures step.Send? && !step.activate
    {
      OnlyDeactivationsAreLeft(h, step);
    }
  }

  /** What repairs the split: after it, one granted request, made while no other is outstanding,
      brings each of the hosts to where the source is, if nothing for that host is lost. */
  lemma NextGrantRepairs(h: Hosts, run: seq<State>, steps: seq<Step>, n: nat, x: Address)
    requires h.Distinct() && (x == h.a || x == h.b)
    requires KeepingRun(h.Wiring(), run, steps, x) && n < |run| && Serialised(run, steps)
    requires run[0] == h.Last() && 2 < |run[n].log| < CLOCK_MODULUS
    requires x in run[n].dests && NothingFor(run[n], x)
    ensures InSync(run[n], x)
  {
    var before, splitting := BothActive(h);
    RunKeepsInv(h.Wiring(), before, splitting, |splitting|);
    Configured(h, h.Last());
    assert DestAgrees(h.Wiring(), h.Last(), x);
    SerialisedConverges(h.Wiring(), run, steps, n, x);
  }

  // A run with a single request, from a state in which nobody waits.
  lemma OneRequestIsSerialised(run: seq<State>, steps: seq<Step>)
    requires |run| == |steps| + 1 && AllIdle(run[0])
    requires forall i :: 0 < i < |steps| ==> !steps[i].Send? && !steps[i].Stray?
    ensures Serialised(run, steps)
  {
    assert forall i :: 0 <= i < |steps| ==> Alone(run[i], steps[i]);
  }

  // --- A host that has missed the restart of the source ---------------------------------------

  // The source has restarted; the host at a still holds clock k of the run before, and was
  // active then. Now the host at b asks.
  datatype Stale = Stale(h: Hosts, k: nat) {
    ghost predicate Valid() { h.Distinct() && k > 0 }

    ghost function Old(): Dest { Dest(Node(Some(h.ka), k, true), Idle) }
    ghost function Entry(): ActiveEvent { ActiveEvent(h.kb, 1) }
    ghost function OnB(): Node { SetActive(h.ks, Entry()) }
    ghost function Told(): Broadcast { Broadcast(h.a, Entry()) }

    ghost function R0(): State { State(FRESH, [], h.Both(Old(), h.Idles()), multiset{}) }
    ghost function R1(): State { State(FRESH, [], h.Both(Old(), h.Asks()), multiset{}) }
    ghost function R2(): State {
      State(OnB(), [h.kb], h.Both(Old(), Dest(FRESH, Answered(Entry(), 0))), multiset{Told()})
    }
    ghost function R3(): State {
      State(OnB(), [h.kb], h.Both(Old(), Dest(FRESH, Answered(Entry(), 0))), multiset{})
    }
    ghost function R4(): State {
      State(OnB(), [h.kb], h.Both(Old(), Dest(SetActive(h.kb, Entry()), Idle)), multiset{})
    }

    ghost function Run(): seq<State> { [R0(), R1(), R2(), R3(), R4()] }
    ghost function Steps(): seq<Step> { [Send(h.b, true), Process(h.b), Deliver(Told()), DeliverReply(h.b)] }
  }

  lemma StaleRequest(x: Stale)
    requires x.Valid()
    ensures StepAt(x.h.Wiring(), x.Run(), x.Steps(), 0)
  {
  }

  lemma StaleGrant(x: Stale)
    requires x.Valid()
    ensures StepAt(x.h.Wiring(), x.Run(), x.Steps(), 1)
  {
    GrantsAsker(x.h, x.R1(), ActivateEvent(x.h.kb, true));
    assert x.R1().net + multiset{x.Told()} == x.R2().net;
  }

  lemma StaleIgnores(x: Stale)
    requires x.Valid()
    ensures StepAt(x.h.Wiring(), x.Run(), x.Steps(), 2)
  {
    assert x.R2().net - multiset{x.Told()} == x.R3().net;
  }

  lemma StaleReply(x: Stale)
    requires x.Valid()
    ensures StepAt(x.h.Wiring(), x.Run(), x.Steps(), 3)
  {
  }

  lemma StaleStep(x: Stale, i: nat)
    requires x.Valid() && i < 4
    ensures StepAt(x.h.Wiring(), x.Run(), x.Steps(), i)
  {
    match i {
      case 0 => StaleRequest(x);
      case 1 => StaleGrant(x);
      case 2 => StaleIgnores(x);
      case 3 => StaleReply(x);
    }
  }

  lemma StaleRun(x: Stale)
    requires x.Valid()
    ensures LosslessRun(x.h.Wiring(), x.Run(), x.Steps())
  {
    forall i | 0 <= i < 4 ensures StepAt(x.h.Wiring(), x.Run(), x.Steps(), i) {
      StaleStep(x, i);
    }
  }

  /** Requests made one at a time do not help a host that missed the restart. For any clock k it
      may still hold: a serialised lossless run, from a source that has just started, that ends
      with nothing in flight and that host out of step, still believing that it is active. */
  lemma StaleHostStaysOut(x: Stale) returns (run: seq<State>, steps: seq<Step>)
    requires x.Valid()
    ensures LosslessRun(x.h.Wiring(), run, steps) && Serialised(run, steps)
    ensures WellConfigured(x.h.Wiring(), run[0]) && SourceStart(x.h.Wiring(), run[0]) && run[0].net == multiset{}
    ensures run[0].dests.Keys == {x.h.a, x.h.b} && run[0].dests[x.h.a].node.clock == x.k
    ensures |run[|steps|].log| == 1 && Quiescent(run[|steps|])
    ensures run[|steps|].dests.Keys == {x.h.a, x.h.b} && !InSync(run[|steps|], x.h.a)
    ensures run[|steps|].dests[x.h.a].node.hostActive && run[|steps|].dests[x.h.b].node.hostActive
  {
    run, steps := x.Run(), x.Steps();
    StaleRun(x);
    OneRequestIsSerialised(run, steps);
    Configured(x.h, run[0]);
  }

  // --- Resets that come late ------------------------------------------------------------------

  // Everything has just started and the resets of the source are in flight. The host at b asks,
  // is answered, and everybody knows; then the resets arrive.
  datatype Late = Late(h: Hosts) {
    ghost function Entry(): ActiveEvent { ActiveEvent(h.kb, 1) }
    ghost function OnB(): Node { SetActive(h.ks, Entry()) }
    ghost function Told(): Broadcast { Broadcast(h.a, Entry()) }
    ghost function ResetA(): Broadcast { Broadcast(h.a, ActiveEvent(h.ks, 0)) }
    ghost function ResetB(): Broadcast { Broadcast(h.b, ActiveEvent(h.ks, 0)) }
    ghost function Knows(): Dest { Dest(SetActive(h.ka, Entry()), Idle) }
    ghost function Active(): Dest { Dest(SetActive(h.kb, Entry()), Idle) }
    ghost function Waits(): Dest { Dest(FRESH, Answered(Entry(), 0)) }

    ghost function L0(): State { State(FRESH, [], h.Both(h.Idles(), h.Idles()), multiset{ResetA(), ResetB()}) }
    ghost function L1(): State { State(FRESH, [], h.Both(h.Idles(), h.Asks()), multiset{ResetA(), ResetB()}) }
    ghost function L2(): State {
      State(OnB(), [h.kb], h.Both(h.Idles(), Waits()), multiset{ResetA(), ResetB(), Told()})
    }
    ghost function L3(): State { State(OnB(), [h.kb], h.Both(Knows(), Waits()), multiset{ResetA(), ResetB()}) }
    ghost function L4(): State { State(OnB(), [h.kb], h.Both(Knows(), Active()), multiset{ResetA(), ResetB()}) }
    ghost function L5(): State { State(OnB(), [h.kb], h.Both(h.Idles(), Active()), multiset{ResetB()}) }
    ghost function L6(): State { State(OnB(), [h.kb], h.Both(h.Idles(), h.Idles()), multiset{}) }

    ghost function Run(): seq<State> { [L0(), L1(), L2(), L3(), L4(), L5(), L6()] }
    ghost function Steps(): seq<Step> {
      [Send(h.b, true), Process(h.b), Deliver(Told()), DeliverReply(h.b), Deliver(ResetA()), Deliver(ResetB())]
    }
  }

  lemma LateRequest(x: Late)
    requires x.h.Distinct()
    ensures StepAt(x.h.Wiring(), x.Run(), x.Steps(), 0)
  {
  }

  lemma LateGrant(x: Late)
    requires x.h.Distinct()
    ensures StepAt(x.h.Wiring(), x.Run(), x.Steps(), 1)
  {
    GrantsAsker(x.h, x.L1(), ActivateEvent(x.h.kb, true));
    assert x.L1().net + multiset{x.Told()} == x.L2().net;
  }

  lemma LateTold(x: Late)
    requires x.h.Distinct()
    ensures StepAt(x.h.Wiring(), x.Run(), x.Steps(), 2)
  {
    assert x.L2().net - multiset{x.Told()} == x.L3().net;
  }

  lemma LateReply(x: Late)
    requires x.h.Distinct()
    ensures StepAt(x.h.Wiring(), x.Run(), x.Steps(), 3)
  {
  }

  lemma LateResetOfA(x: Late)
    requires x.h.Distinct()
    ensures StepAt(x.h.Wiring(), x.Run(), x.Steps(), 4)
  {
    assert x.L4().net - multiset{x.ResetA()} == x.L5().net;
  }

  lemma LateResetOfB(x: Late)
    requires x.h.Distinct()
    ensures StepAt(x.h.Wiring(), x.Run(), x.Steps(), 5)
  {
    assert x.L5().net - multiset{x.ResetB()} == x.L6().net;
  }

  lemma LateStep(x: Late, i: nat)
    requires x.h.Distinct() && i < 6
    ensures StepAt(x.h.Wiring(), x.Run(), x.Steps(), i)
  {
    match i {
      case 0 => LateRequest(x);
      case 1 => LateGrant(x);
      case 2 => LateTold(x);
      case 3 => LateReply(x);
      case 4 => LateResetOfA(x);
      case 5 => LateResetOfB(x);
    }
  }

  lemma LateRun(x: Late)
    requires x.h.Distinct()
    ensures LosslessRun(x.h.Wiring(), x.Run(), x.Steps())
  {
    forall i | 0 <= i < 6 ensures StepAt(x.h.Wiring(), x.Run(), x.Steps(), i) {
      LateStep(x, i);
    }
  }

  lemma LateStarts(x: Late)
    requires x.h.Distinct()
    ensures ColdStart(x.h.Wiring(), x.L0()) && Startup(x.h.Wiring(), x.L0())
  {
    var peers := x.h.Wiring().source.peers;
    assert peers[1..][1..] == [] && Resets(peers[1..][1..], x.h.ks) == [];
    assert Resets(peers[1..], x.h.ks) == [x.ResetB()];
    assert Resets(peers, x.h.ks) == [x.ResetA(), x.ResetB()];
  }

  /** From the very start of the program, with requests made one at a time and nothing lost: the
      resets come last, and in the end nobody knows the host the source has made active, not even
      that host itself. */
  lemma LateResetsWipeAll(x: Late) returns (run: seq<State>, steps: seq<Step>)
    requires x.h.Distinct()
    ensures LosslessRun(x.h.Wiring(), run, steps) && Serialised(run, steps)
    ensures ColdStart(x.h.Wiring(), run[0]) && Startup(x.h.Wiring(), run[0]) && WellConfigured(x.h.Wiring(), run[0])
    ensures Quiescent(run[|steps|]) && run[|steps|].source.peer == Some(x.h.kb)
    ensures run[|steps|].dests == x.h.Both(x.h.Idles(), x.h.Idles())
    ensures !InSync(run[|steps|], x.h.a) && !InSync(run[|steps|], x.h.b)
  {
    run, steps := x.Run(), x.Steps();
    LateRun(x);
    OneRequestIsSerialised(run, steps);
    LateStarts(x);
    Configured(x.h, run[0]);
  }
}
