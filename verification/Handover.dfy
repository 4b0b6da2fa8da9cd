/** What the protocol is for: the wheel passes from one host to another that asks for it, and back
    to the source when the active host gives it up (`src/transport/active.rs:162-226`,
    `src/transport/server.rs:130-202`). Two runs, for any two hosts and any log. */
module Handover {
  import opened Wrappers
  import opened Settings
  import opened Active
  import opened Protocol
  import opened Convergence
  import opened SplitBrain

  // The host at b is the active one, everybody knows, and nothing is in flight.
  datatype Held = Held(h: Hosts, log: seq<Key>) {
    ghost predicate Valid() {
      && h.Distinct() && log != [] && log[|log| - 1] == h.kb && |log| + 1 < CLOCK_MODULUS
      && forall k :: k in log ==> k == h.ka || k == h.kb || k == h.ks
    }

    ghost function Now(): ActiveEvent { ActiveEvent(h.kb, |log|) }
    ghost function ToA(): ActiveEvent { ActiveEvent(h.ka, |log| + 1) }
    ghost function ToSource(): ActiveEvent { ActiveEvent(h.ks, |log| + 1) }

    // A state in which the hosts at a and b hold these entries and wait for these replies.
    ghost function At(e: ActiveEvent, log: seq<Key>, ea: ActiveEvent, ra: Rpc, eb: ActiveEvent, rb: Rpc,
                      net: multiset<Broadcast>): State {
      State(SetActive(h.ks, e), log, h.Both(Dest(SetActive(h.ka, ea), ra), Dest(SetActive(h.kb, eb), rb)), net)
    }

    ghost function H0(): State { At(Now(), log, Now(), Idle, Now(), Idle, multiset{}) }

    // The host at a asks for the wheel.
    ghost function H1(): State { At(Now(), log, Now(), Asking(true, |log|), Now(), Idle, multiset{}) }
    ghost function H2(): State {
      At(ToA(), log + [h.ka], Now(), Answered(ToA(), |log|), Now(), Idle, multiset{Broadcast(h.b, ToA())})
    }
    ghost function H3(): State {
      At(ToA(), log + [h.ka], Now(), Answered(ToA(), |log|), ToA(), Idle, multiset{})
    }
    ghost function H4(): State { At(ToA(), log + [h.ka], ToA(), Idle, ToA(), Idle, multiset{}) }

    ghost function Over(): seq<State> { [H0(), H1(), H2(), H3(), H4()] }
    ghost function OverSteps(): seq<Step> {
      [Send(h.a, true), Process(h.a), Deliver(Broadcast(h.b, ToA())), DeliverReply(h.a)]
    }

    // The host at b gives it up.
    ghost function B1(): State { At(Now(), log, Now(), Idle, Now(), Asking(false, |log|), multiset{}) }
    ghost function B2(): State {
      At(ToSource(), log + [h.ks], Now(), Idle, Now(), Answered(ToSource(), |log|),
         multiset{Broadcast(h.a, ToSource()), Broadcast(h.b, ToSource())})
    }
    ghost function B3(): State {
      At(ToSource(), log + [h.ks], ToSource(), Idle, Now(), Answered(ToSource(), |log|),
         multiset{Broadcast(h.b, ToSource())})
    }
    ghost function B4(): State {
      At(ToSource(), log + [h.ks], ToSource(), Idle, ToSource(), Answered(ToSource(), |log|), multiset{})
    }
    ghost function B5(): State { At(ToSource(), log + [h.ks], ToSource(), Idle, ToSource(), Idle, multiset{}) }

    ghost function Back(): seq<State> { [H0(), B1(), B2(), B3(), B4(), B5()] }
    ghost function BackSteps(): seq<Step> {
      [Send(h.b, false), Process(h.b), Deliver(Broadcast(h.a, ToSource())), Deliver(Broadcast(h.b, ToSource())),
       DeliverReply(h.b)]
    }
  }

  lemma StartsAtRest(x: Held)
    requires x.Valid()
    ensures AtRest(x.h.Wiring(), x.H0()) && WellConfigured(x.h.Wiring(), x.H0())
    ensures InSync(x.H0(), x.h.a) && InSync(x.H0(), x.h.b)
  {
    Configured(x.h, x.H0());
    var c := x.h.Wiring().source;
    forall k | k in x.log ensures Eligible(c, k) {
      assert c.peers[0] in c.peers && c.peers[1] in c.peers;
    }
    forall d | d in x.H0().dests ensures DestAgrees(x.h.Wiring(), x.H0(), d) && RpcAdvances(x.H0(), d) {
    }
  }

  // --- Handover -----------------------------------------------------------------------------

  lemma AAsks(x: Held)
    requires x.Valid()
    ensures StepAt(x.h.Wiring(), x.Over(), x.OverSteps(), 0)
  {
  }

  lemma AIsAnswered(x: Held)
    requires x.Valid()
    ensures StepAt(x.h.Wiring(), x.Over(), x.OverSteps(), 1)
  {
    GrantsAsker(x.h, x.H1(), ActivateEvent(x.h.ka, true));
    assert x.H1().net + multiset{Broadcast(x.h.b, x.ToA())} == x.H2().net;
  }

  lemma BIsTold(x: Held)
    requires x.Valid()
    ensures StepAt(x.h.Wiring(), x.Over(), x.OverSteps(), 2)
  {
    assert x.H2().net - multiset{Broadcast(x.h.b, x.ToA())} == x.H3().net;
  }

  lemma AHearsBack(x: Held)
    requires x.Valid()
    ensures StepAt(x.h.Wiring(), x.Over(), x.OverSteps(), 3)
  {
  }

  lemma OverStep(x: Held, i: nat)
    requires x.Valid() && i < 4
    ensures StepAt(x.h.Wiring(), x.Over(), x.OverSteps(), i)
  {
    match i {
      case 0 => AAsks(x);
      case 1 => AIsAnswered(x);
      case 2 => BIsTold(x);
      case 3 => AHearsBack(x);
    }
  }

  lemma HandoverRun(x: Held)
    requires x.Valid()
    ensures LosslessRun(x.h.Wiring(), x.Over(), x.OverSteps())
  {
    forall i | 0 <= i < 4 ensures StepAt(x.h.Wiring(), x.Over(), x.OverSteps(), i) {
      OverStep(x, i);
    }
  }

  /** Handover: while the host at b is active and everybody knows, the host at a asks; then it is
      the active one, the host at b no longer is, and everybody knows that. */
  lemma PassesToTheAsker(x: Held) returns (run: seq<State>, steps: seq<Step>)
    requires x.Valid()
    ensures LosslessRun(x.h.Wiring(), run, steps) && run[0] == x.H0() && AtRest(x.h.Wiring(), run[0])
    ensures |steps| == 4 && steps[0] == Send(x.h.a, true)
    ensures run[0].dests[x.h.b].node.hostActive && !run[0].dests[x.h.a].node.hostActive
    ensures var s := run[|steps|];
            && Quiescent(s) && s.source.peer == Some(x.h.ka) && s.source.clock == |x.log| + 1
            && s.dests.Keys == {x.h.a, x.h.b} && InSync(s, x.h.a) && InSync(s, x.h.b)
            && s.dests[x.h.a].node.hostActive && !s.dests[x.h.b].node.hostActive
  {
    StartsAtRest(x);
    run, steps := x.Over(), x.OverSteps();
    HandoverRun(x);
  }

  // --- Hand-back ----------------------------------------------------------------------------

  // The source grants a deactivation: its own key, told to both.
  lemma GrantsBack(h: Hosts, s: State)
    requires h.Distinct() && s.source.clock + 1 < CLOCK_MODULUS
    ensures var t, req, e := h.Wiring(), ActivateEvent(h.kb, false), ActiveEvent(h.ks, s.source.clock + 1);
            && Grant(t.source, req) == Ok(h.ks)
            && Granted(t, s, req) == s.(
                 source := SetActive(h.ks, e),
                 log := s.log + [h.ks],
                 net := s.net + multiset{Broadcast(h.a, e), Broadcast(h.b, e)})
  {
    var peers := h.Wiring().source.peers;
    var e := ActiveEvent(h.ks, s.source.clock + 1);
    EntryClockIsZeroIffWrapped(h.ks, s.source, h.ks);
    assert peers[1..][0].publicKey == h.kb && peers[1..][1..] == [];
    assert Broadcasts(peers[1..][1..], e) == [] && Broadcasts(peers[1..], e) == [Broadcast(h.b, e)];
    assert Broadcasts(peers, e) == [Broadcast(h.a, e), Broadcast(h.b, e)];
  }

  lemma BGivesUp(x: Held)
    requires x.Valid()
    ensures StepAt(x.h.Wiring(), x.Back(), x.BackSteps(), 0)
  {
  }

  lemma BIsAnswered(x: Held)
    requires x.Valid()
    ensures StepAt(x.h.Wiring(), x.Back(), x.BackSteps(), 1)
  {
    GrantsBack(x.h, x.B1());
    assert x.B1().net + multiset{Broadcast(x.h.a, x.ToSource()), Broadcast(x.h.b, x.ToSource())} == x.B2().net;
  }

  lemma AIsToldBack(x: Held)
    requires x.Valid()
    ensures StepAt(x.h.Wiring(), x.Back(), x.BackSteps(), 2)
  {
    assert x.B2().net - multiset{Broadcast(x.h.a, x.ToSource())} == x.B3().net;
  }

  lemma BIsToldBack(x: Held)
    requires x.Valid()
    ensures StepAt(x.h.Wiring(), x.Back(), x.BackSteps(), 3)
  {
    assert x.B3().net - multiset{Broadcast(x.h.b, x.ToSource())} == x.B4().net;
  }

  lemma BHearsBack(x: Held)
    requires x.Valid()
    ensures StepAt(x.h.Wiring(), x.Back(), x.BackSteps(), 4)
  {
  }

  lemma BackStep(x: Held, i: nat)
    requires x.Valid() && i < 5
    ensures StepAt(x.h.Wiring(), x.Back(), x.BackSteps(), i)
  {
    match i {
      case 0 => BGivesUp(x);
      case 1 => BIsAnswered(x);
      case 2 => AIsToldBack(x);
      case 3 => BIsToldBack(x);
      case 4 => BHearsBack(x);
    }
  }

  lemma HandBackRun(x: Held)
    requires x.Valid()
    ensures LosslessRun(x.h.Wiring(), x.Back(), x.BackSteps())
  {
    forall i | 0 <= i < 5 ensures StepAt(x.h.Wiring(), x.Back(), x.BackSteps(), i) {
      BackStep(x, i);
    }
  }

  /** Hand-back: the active host asks to be deactivated; then the source itself has the wheel, no
      host takes itself for the active one, and everybody knows. */
  lemma PassesBackToTheSource(x: Held) returns (run: seq<State>, steps: seq<Step>)
    requires x.Valid()
    ensures LosslessRun(x.h.Wiring(), run, steps) && run[0] == x.H0() && AtRest(x.h.Wiring(), run[0])
    ensures |steps| == 5 && steps[0] == Send(x.h.b, false)
    ensures var s := run[|steps|];
            && Quiescent(s) && s.source.peer == Some(x.h.ks) && s.source.hostActive
            && s.dests.Keys == {x.h.a, x.h.b} && InSync(s, x.h.a) && InSync(s, x.h.b)
            && !s.dests[x.h.a].node.hostActive && !s.dests[x.h.b].node.hostActive
  {
    StartsAtRest(x);
    run, steps := x.Back(), x.BackSteps();
    HandBackRun(x);
  }
}
