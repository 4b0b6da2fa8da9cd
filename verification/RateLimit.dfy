/** The windowed error limiter (`src/errors/tracing.rs:9-57`). Times are nanoseconds of one
    monotonic clock. */
module RateLimit {

  const MAX_ERRORS: nat := 5
  const WINDOW: nat := 60_000_000_000

  datatype Limit = Limit(count: nat, windowStart: nat)

  // `should_log` at time `now`.
  function Step(l: Limit, now: nat): (Limit, bool) {
    if now - l.windowStart >= WINDOW then (Limit(1, now), true)
    else if l.count < MAX_ERRORS then (l.(count := l.count + 1), true)
    else (l, false)
  }

  // One error: when its kind was last looked up (`created`, used only for a kind's first error)
  // and when `should_log` read the clock.
  datatype ErrorAt<K> = ErrorAt(kind: K, created: nat, now: nat)

  /** The global limiter: one state for each kind that has failed so far. */
  class Limiter<K(==)> {
    var states: map<K, Limit>

    constructor ()
      ensures states == map[]
    {
      states := map[];
    }

    method Error(e: ErrorAt<K>) returns (log: bool)
      modifies this
      ensures states == old(states)[e.kind := Step(Entry(old(states), e), e.now).0]
      ensures log == Step(Entry(old(states), e), e.now).1
    {
      if e.kind !in states {
        states := states[e.kind := Limit(1, e.created)];
      }
      var state := states[e.kind];
      if e.now - state.windowStart >= WINDOW {
        state := Limit(1, e.now);
        log := true;
      } else if state.count < MAX_ERRORS {
        state := state.(count := state.count + 1);
        log := true;
      } else {
        log := false;
      }
      states := states[e.kind := state];
    }
  }

  // `entry(kind).or_insert_with(new)`: a fresh state already counts one.
  function Entry<K>(states: map<K, Limit>, e: ErrorAt<K>): Limit {
    if e.kind in states then states[e.kind] else Limit(1, e.created)
  }

  // How many errors of kind k are logged at a time in [a, a + 60 s).
  ghost function LoggedIn<K>(states: map<K, Limit>, es: seq<ErrorAt<K>>, k: K, a: int): nat
    decreases |es|
  {
    if es == [] then 0
    else
      var (l, log) := Step(Entry(states, es[0]), es[0].now);
      (if log && es[0].kind == k && a <= es[0].now < a + 60_000_000_000 then 1 else 0)
      + LoggedIn(states[es[0].kind := l], es[1..], k, a)
  }

  // The errors of kind k come in time order, none before `from`.
  ghost predicate Ordered<K>(es: seq<ErrorAt<K>>, k: K, from: nat)
    decreases |es|
  {
    es == [] ||
    if es[0].kind == k then from <= es[0].created <= es[0].now && Ordered(es[1..], k, es[0].now)
    else Ordered(es[1..], k, from)
  }

  ghost predicate Fits<K>(states: map<K, Limit>, k: K, now: nat) {
    k in states ==> states[k].windowStart <= now && 1 <= states[k].count <= MAX_ERRORS
  }

  // --- Upper bound --------------------------------------------------------------------------

  // What a state allows inside [a, a + 60 s) when all further errors come at `from` or later.
  ghost function Allowance<K>(states: map<K, Limit>, k: K, a: int, from: nat): int {
    if from >= a + 60_000_000_000 then 0
    else if k !in states || from < a then 2 * MAX_ERRORS - 1
    else if states[k].windowStart >= a then MAX_ERRORS - states[k].count
    else 2 * MAX_ERRORS - states[k].count
  }

  lemma {:induction false} WithinAllowance<K>(states: map<K, Limit>, es: seq<ErrorAt<K>>, k: K, a: int, from: nat)
    requires Fits(states, k, from) && Ordered(es, k, from)
    ensures LoggedIn(states, es, k, a) <= Allowance(states, k, a, from)
    decreases |es|
  {
    if es != [] {
      var e := es[0];
      var states' := states[e.kind := Step(Entry(states, e), e.now).0];
      WithinAllowance(states', es[1..], k, a, if e.kind == k then e.now else from);
    }
  }

  /** Whatever other kinds do, any half-open 60 s interval holds at most 9 logged errors of one
      kind. */
  lemma AtMostNine<K>(es: seq<ErrorAt<K>>, k: K, a: int)
    requires Ordered(es, k, 0)
    ensures LoggedIn(map[], es, k, a) <= 9
  {
    WithinAllowance(map[], es, k, a, 0);
  }

  /** The first window of a kind, opened when its state is created, logs at most 4 errors because
      a new state already counts one; a window opened later logs at most 5. */
  lemma WindowBounds<K>(states: map<K, Limit>, es: seq<ErrorAt<K>>, k: K, from: nat)
    requires Fits(states, k, from) && Ordered(es, k, from)
    requires es != [] && es[0].kind == k
    ensures k !in states ==> LoggedIn(states, es, k, es[0].created) <= 4
    ensures k in states && es[0].now - states[k].windowStart >= 60_000_000_000 ==>
              LoggedIn(states, es, k, es[0].now) <= 5
  {
    var e := es[0];
    var states' := states[k := Step(Entry(states, e), e.now).0];
    WithinAllowance(states', es[1..], k, e.created, e.now);
    WithinAllowance(states', es[1..], k, e.now, e.now);
  }

  // n errors of kind k at time t.
  ghost function Burst<K>(k: K, t: nat, n: nat): seq<ErrorAt<K>> {
    if n == 0 then [] else [ErrorAt(k, t, t)] + Burst(k, t, n - 1)
  }

  lemma {:induction false} BurstIsLogged<K>(
      states: map<K, Limit>, k: K, t: nat, n: nat, rest: seq<ErrorAt<K>>, a: int)
    requires k in states && t - states[k].windowStart < 60_000_000_000
    requires states[k].count + n <= MAX_ERRORS && a <= t < a + 60_000_000_000
    ensures LoggedIn(states, Burst(k, t, n) + rest, k, a)
            == n + LoggedIn(states[k := Limit(states[k].count + n, states[k].windowStart)], rest, k, a)
  {
    if n == 0 {
      assert Burst(k, t, 0) + rest == rest;
      assert states[k := Limit(states[k].count + n, states[k].windowStart)] == states;
    } else {
      var next := Limit(states[k].count + 1, states[k].windowStart);
      BurstIsLogged(states[k := next], k, t, n - 1, rest, a);
      assert (Burst(k, t, n) + rest)[1..] == Burst(k, t, n - 1) + rest;
      assert states[k := next][k := Limit(next.count + (n - 1), next.windowStart)]
             == states[k := Limit(states[k].count + n, states[k].windowStart)];
    }
  }

  ghost function Worst<K>(k: K): seq<ErrorAt<K>> {
    [ErrorAt(k, 0, 0)] + ([ErrorAt(k, 2 * WINDOW, 2 * WINDOW)]
    + (Burst(k, 3 * WINDOW - 1, 4) + ([ErrorAt(k, 3 * WINDOW, 3 * WINDOW)] + (Burst(k, 3 * WINDOW, 4) + []))))
  }

  lemma Peel<K>(states: map<K, Limit>, e: ErrorAt<K>, rest: seq<ErrorAt<K>>, a: int)
    ensures LoggedIn(states, [e] + rest, e.kind, a) ==
            (if Step(Entry(states, e), e.now).1 && a <= e.now < a + 60_000_000_000 then 1 else 0)
            + LoggedIn(states[e.kind := Step(Entry(states, e), e.now).0], rest, e.kind, a)
  {
  }

  /** Nine is attained. */
  lemma NineIsAttained<K>(k: K)
    ensures LoggedIn(map[], Worst(k), k, 3 * WINDOW - 1) == 9
  {
    var a := 3 * WINDOW - 1;
    var first, opens := ErrorAt(k, 0, 0), ErrorAt(k, 2 * WINDOW, 2 * WINDOW);
    var again := ErrorAt(k, 3 * WINDOW, 3 * WINDOW);
    var last := Burst(k, 3 * WINDOW, 4) + [];
    Peel(map[], first, [opens] + (Burst(k, a, 4) + ([again] + last)), a);
    var s1: map<K, Limit> := map[][k := Limit(2, 0)];
    Peel(s1, opens, Burst(k, a, 4) + ([again] + last), a);
    var s2 := s1[k := Limit(1, 2 * WINDOW)];
    BurstIsLogged(s2, k, a, 4, [again] + last, a);
    var s3 := s2[k := Limit(5, 2 * WINDOW)];
    Peel(s3, again, last, a);
    var s4 := s3[k := Limit(1, 3 * WINDOW)];
    BurstIsLogged(s4, k, 3 * WINDOW, 4, [], a);
  }

  // --- Nothing is suppressed without cause --------------------------------------------------

  ghost function StatesAfter<K>(states: map<K, Limit>, es: seq<ErrorAt<K>>): map<K, Limit>
    decreases |es|
  {
    if es == [] then states
    else StatesAfter(states[es[0].kind := Step(Entry(states, es[0]), es[0].now).0], es[1..])
  }

  ghost function Before<K>(states: map<K, Limit>, k: K, a: int): int {
    if k in states && states[k].windowStart == a then states[k].count - 1 else 0
  }

  lemma {:induction false} SuppressionHasCause<K>(
      states: map<K, Limit>, es: seq<ErrorAt<K>>, e: ErrorAt<K>, from: nat) returns (a: int)
    requires Fits(states, e.kind, from) && Ordered(es + [e], e.kind, from)
    requires !Step(Entry(StatesAfter(states, es), e), e.now).1
    ensures a <= e.now < a + 60_000_000_000
    ensures Before(states, e.kind, a) + LoggedIn(states, es, e.kind, a) >= MAX_ERRORS - 1
    decreases |es|
  {
    var k := e.kind;
    if es == [] {
      assert (es + [e])[0] == e;
      a := states[k].windowStart;
    } else {
      var d := es[0];
      assert (es + [e])[0] == d && (es + [e])[1..] == es[1..] + [e];
      var states' := states[d.kind := Step(Entry(states, d), d.now).0];
      a := SuppressionHasCause(states', es[1..], e, if d.kind == k then d.now else from);
    }
  }

  /** An error is dropped only if at least 4 errors of its kind were logged in the 60 s before
      it. */
  lemma DroppedOnlyWhenBusy<K>(es: seq<ErrorAt<K>>, e: ErrorAt<K>)
    requires Ordered(es + [e], e.kind, 0)
    requires !Step(Entry(StatesAfter(map[], es), e), e.now).1
    ensures exists a: int :: a <= e.now < a + 60_000_000_000 && LoggedIn(map[], es, e.kind, a) >= 4
  {
    var a := SuppressionHasCause(map[], es, e, 0);
  }

  // --- Kinds --------------------------------------------------------------------------------

  ghost function OfKind<K>(es: seq<ErrorAt<K>>, k: K): seq<ErrorAt<K>>
    decreases |es|
  {
    if es == [] then []
    else (if es[0].kind == k then [es[0]] else []) + OfKind(es[1..], k)
  }

  // The decisions taken for the errors of kind k.
  ghost function DecisionsFor<K>(states: map<K, Limit>, es: seq<ErrorAt<K>>, k: K): seq<bool>
    decreases |es|
  {
    if es == [] then []
    else
      var (l, log) := Step(Entry(states, es[0]), es[0].now);
      (if es[0].kind == k then [log] else []) + DecisionsFor(states[es[0].kind := l], es[1..], k)
  }

  /** What happens to the errors of one kind does not depend on any other kind: leaving the
      others out changes no decision. */
  lemma {:induction false} KindsAreIndependent<K>(
      states: map<K, Limit>, alone: map<K, Limit>, es: seq<ErrorAt<K>>, k: K)
    requires k in states <==> k in alone
    requires k in states ==> states[k] == alone[k]
    ensures DecisionsFor(states, es, k) == DecisionsFor(alone, OfKind(es, k), k)
    decreases |es|
  {
    if es != [] {
      var e := es[0];
      var states' := states[e.kind := Step(Entry(states, e), e.now).0];
      if e.kind == k {
        KindsAreIndependent(states', alone[k := Step(Entry(alone, e), e.now).0], es[1..], k);
        assert OfKind(es, k)[1..] == OfKind(es[1..], k);
      } else {
        KindsAreIndependent(states', alone, es[1..], k);
        assert OfKind(es, k) == OfKind(es[1..], k);
      }
    }
  }
}
