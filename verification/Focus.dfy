/** The blur machine of `ScrollSender::send` (`src/scroll/sender.rs:131-146`): it decides from
    two timestamps whether a received scroll event is injected, and its specification over
    whole traces of local scrolls and sends. One send is one atomic step. */
module Focus {

  const SCROLL_TTL: nat := 120
  const BLUR_TTL: nat := 50
  const U64: nat := 0x1_0000_0000_0000_0000

  datatype FocusState = FocusState(lastScroll: nat, lastBlur: nat)
  datatype Verdict = Inject | Suppress

  // `-` on u64 as release builds compute it; a debug build panics where it wraps.
  function Minus(a: nat, b: nat): nat
    requires a < U64 && b < U64
  {
    if a >= b then a - b else a + U64 - b
  }

  predicate LooksStale(lastScroll: nat, now: nat)
    requires lastScroll < U64 && now < U64
  {
    lastScroll > 0 && Minus(now, lastScroll) > SCROLL_TTL
  }

  function Judge(f: FocusState, now: nat): (FocusState, Verdict)
    requires f.lastScroll < U64 && f.lastBlur < U64 && now < U64
  {
    if LooksStale(f.lastScroll, now) then
      if f.lastBlur == 0 then (f.(lastBlur := now), Inject)
      else if Minus(now, f.lastBlur) > BLUR_TTL then (f, Suppress)
      else (f, Inject)
    else (f.(lastBlur := 0), Inject)
  }

  // --- Traces -------------------------------------------------------------------------------

  // What a host sees: its own device scrolls or reports something else, or a send is received.
  datatype Act = LocalScroll(at: nat) | LocalOther(at: nat) | Send(at: nat)

  ghost predicate TimeOrdered(acts: seq<Act>) {
    && (forall i :: 0 <= i < |acts| ==> acts[i].at < U64)
    && (forall i, j :: 0 <= i <= j < |acts| ==> acts[i].at <= acts[j].at)
  }

  ghost function FocusStep(f: FocusState, a: Act): FocusState
    requires f.lastScroll < U64 && f.lastBlur < U64 && a.at < U64
  {
    match a
    case LocalScroll(t) => f.(lastScroll := t)
    case LocalOther(_) => f
    case Send(t) => Judge(f, t).0
  }

  // The machine that was at f after n more acts.
  ghost function From(f: FocusState, acts: seq<Act>, n: nat): (f': FocusState)
    requires f.lastScroll < U64 && f.lastBlur < U64
    requires n <= |acts| && forall i :: 0 <= i < |acts| ==> acts[i].at < U64
    ensures f'.lastScroll < U64 && f'.lastBlur < U64
  {
    if n == 0 then f else FocusStep(From(f, acts, n - 1), acts[n - 1])
  }

  // The machine after the first n acts of its host.
  ghost function After(acts: seq<Act>, n: nat): FocusState
    requires n <= |acts| && TimeOrdered(acts)
  {
    From(FocusState(0, 0), acts, n)
  }

  ghost predicate Suppressed(acts: seq<Act>, i: nat)
    requires i < |acts| && TimeOrdered(acts)
  {
    acts[i].Send? && Judge(After(acts, i), acts[i].at).1 == Suppress
  }

  // --- Specification, without the machine ---------------------------------------------------

  // The time of the last local scroll before act n; 0 when there is none. A local scroll in the
  // very first millisecond of the process is indistinguishable from none.
  ghost function LastLocal(acts: seq<Act>, n: nat): nat
    requires n <= |acts|
  {
    if n == 0 then 0
    else if acts[n - 1].LocalScroll? then acts[n - 1].at
    else LastLocal(acts, n - 1)
  }

  // A send whose host has scrolled before, but not within the last 120 ms.
  ghost predicate StaleSend(acts: seq<Act>, i: nat)
    requires i < |acts|
  {
    && acts[i].Send?
    && LastLocal(acts, i) > 0
    && acts[i].at - LastLocal(acts, i) > 120
  }

  // Every send from act j, itself a send, up to act n is stale.
  ghost predicate StaleFrom(acts: seq<Act>, j: nat, n: nat)
    requires n <= |acts|
  {
    j < n && acts[j].Send? && forall k :: j <= k < n && acts[k].Send? ==> StaleSend(acts, k)
  }

  // The blur timestamp remembers where the current run of stale sends began.
  ghost predicate FocusInv(acts: seq<Act>, n: nat)
    requires n <= |acts| && TimeOrdered(acts)
  {
    var f := After(acts, n);
    && f.lastScroll == LastLocal(acts, n)
    && (n > 0 ==> f.lastScroll <= acts[n - 1].at && f.lastBlur <= acts[n - 1].at)
    && (f.lastBlur == 0 ==> forall j :: 0 <= j < n ==> !StaleFrom(acts, j, n))
    && (f.lastBlur != 0 ==> exists j ::
          && 0 <= j < n && StaleFrom(acts, j, n) && acts[j].at == f.lastBlur
          && forall k :: 0 <= k < j ==> !StaleFrom(acts, k, n))
  }

  lemma StaleFromShrinks(acts: seq<Act>, j: nat, n: nat)
    requires n < |acts| && j < n
    ensures StaleFrom(acts, j, n + 1) <==> StaleFrom(acts, j, n) && (acts[n].Send? ==> StaleSend(acts, n))
  {
  }

  // What act m, the one before n, does to a run of stale sends that began at act j.
  lemma RunGoesOn(acts: seq<Act>, j: nat, m: nat, n: nat)
    requires j < m && n == m + 1 <= |acts| && (acts[m].Send? ==> StaleSend(acts, m))
    requires StaleFrom(acts, j, m) && forall k :: 0 <= k < j ==> !StaleFrom(acts, k, m)
    ensures StaleFrom(acts, j, n) && forall k :: 0 <= k < j ==> !StaleFrom(acts, k, n)
  {
    StaleFromShrinks(acts, j, m);
    forall k | 0 <= k < j ensures !StaleFrom(acts, k, n) {
      StaleFromShrinks(acts, k, m);
    }
  }

  lemma {:induction false} FocusInvHolds(acts: seq<Act>, n: nat)
    requires n <= |acts| && TimeOrdered(acts)
    ensures FocusInv(acts, n)
  {
    if n > 0 {
      var m := n - 1;
      FocusInvHolds(acts, m);
      var f := After(acts, m);
      if m > 0 {
        assert acts[m - 1].at <= acts[m].at;
      }
      forall j | 0 <= j < m
        ensures StaleFrom(acts, j, n) <==> StaleFrom(acts, j, m) && (acts[m].Send? ==> StaleSend(acts, m))
      {
        StaleFromShrinks(acts, j, m);
      }
      if (acts[m].Send? ==> StaleSend(acts, m)) && f.lastBlur != 0 {
        var j :| 0 <= j < m && StaleFrom(acts, j, m) && acts[j].at == f.lastBlur
                 && forall k :: 0 <= k < j ==> !StaleFrom(acts, k, m);
        RunGoesOn(acts, j, m, n);
      } else if acts[m].Send? && StaleSend(acts, m) {
        assert StaleFrom(acts, m, n);
      }
    }
  }

  /** A send is suppressed if and only if it ends a run of stale sends that began more than 50 ms
      earlier. */
  lemma SuppressedIff(acts: seq<Act>, i: nat)
    requires i < |acts| && TimeOrdered(acts) && acts[i].Send?
    ensures Suppressed(acts, i) <==>
            exists j :: 0 <= j <= i && StaleFrom(acts, j, i + 1) && acts[i].at - acts[j].at > 50
  {
    FocusInvHolds(acts, i);
    var f := After(acts, i);
    var now := acts[i].at;
    if i > 0 {
      assert acts[i - 1].at <= acts[i].at;
    }
    assert LooksStale(f.lastScroll, now) <==> StaleSend(acts, i);
    if f.lastBlur != 0 && StaleSend(acts, i) {
      var j :| 0 <= j < i && StaleFrom(acts, j, i) && acts[j].at == f.lastBlur
               && forall k :: 0 <= k < j ==> !StaleFrom(acts, k, i);
      assert StaleFrom(acts, j, i + 1);
      forall k | 0 <= k <= i && StaleFrom(acts, k, i + 1) ensures acts[j].at <= acts[k].at {
        if k < i {
          StaleFromShrinks(acts, k, i);
          assert j <= k;
        }
      }
    } else {
      assert !Suppressed(acts, i);
      forall k | 0 <= k <= i && StaleFrom(acts, k, i + 1) ensures acts[i].at - acts[k].at <= BLUR_TTL {
        if k < i {
          StaleFromShrinks(acts, k, i);
        }
      }
    }
  }

  /** No send within 50 ms after a send that was not stale is suppressed. */
  lemma GraceAfterFreshSend(acts: seq<Act>, k: nat, i: nat)
    requires k < i < |acts| && TimeOrdered(acts) && acts[k].Send? && acts[i].Send?
    requires !StaleSend(acts, k) && acts[i].at - acts[k].at <= 50
    ensures !Suppressed(acts, i)
  {
    SuppressedIff(acts, i);
    forall j | 0 <= j <= i && StaleFrom(acts, j, i + 1)
      ensures acts[i].at - acts[j].at <= BLUR_TTL
    {
      assert j > k;
    }
  }

  /** In a time-ordered trace of atomic sends the subtractions never go below zero, and a blur
      that is recorded is never the 0 that stands for none. */
  lemma TimestampsAreSound(acts: seq<Act>, i: nat)
    requires i < |acts| && TimeOrdered(acts) && acts[i].Send?
    ensures After(acts, i).lastScroll <= acts[i].at && After(acts, i).lastBlur <= acts[i].at
    ensures StaleSend(acts, i) <==> After(acts, i + 1).lastBlur != 0
  {
    FocusInvHolds(acts, i);
    if i > 0 {
      assert acts[i - 1].at <= acts[i].at;
    }
  }
}
