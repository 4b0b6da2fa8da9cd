/** Sends that are not atomic. A send of the blur machine reads the clock and then the last local
    scroll (`src/scroll/sender.rs:131-134`), and a blocker thread may store a newer scroll between
    the two. This module says which sends that can hurt, and that all others are atomic. */
module Race {
  import opened Focus

  // The two reads of one send, with stores of the blocker threads before, between and after.
  datatype Micro = Store(at: nat) | ReadClock(at: nat) | Decide(at: nat)

  // `now` is the clock reading the send in progress goes by.
  datatype Split = Split(focus: FocusState, now: nat)

  ghost predicate MicroOrdered(ms: seq<Micro>) {
    && (forall i :: 0 <= i < |ms| ==> ms[i].at < U64)
    && (forall i, j :: 0 <= i <= j < |ms| ==> ms[i].at <= ms[j].at)
  }

  ghost function SplitAfter(ms: seq<Micro>, n: nat): (s: Split)
    requires n <= |ms| && MicroOrdered(ms)
    ensures s.focus.lastScroll < U64 && s.focus.lastBlur < U64 && s.now < U64
  {
    if n == 0 then Split(FocusState(0, 0), 0)
    else
      var s := SplitAfter(ms, n - 1);
      match ms[n - 1]
      case Store(t) => s.(focus := s.focus.(lastScroll := t))
      case ReadClock(t) => s.(now := t)
      case Decide(_) => s.(focus := Judge(s.focus, s.now).0)
  }

  // Act i decides by the clock reading of act j.
  ghost predicate DecidesBy(ms: seq<Micro>, j: nat, i: nat) {
    j < i < |ms| && ms[j].ReadClock? && ms[i].Decide? && forall k :: j < k < i ==> ms[k].Store?
  }

  lemma {:induction false} StoresAreSeen(ms: seq<Micro>, j: nat, n: nat)
    requires j < n <= |ms| && MicroOrdered(ms) && ms[j].ReadClock?
    requires forall k :: j < k < n ==> ms[k].Store?
    ensures SplitAfter(ms, n).now == ms[j].at
    ensures SplitAfter(ms, n).focus.lastScroll
            == if n == j + 1 then SplitAfter(ms, j).focus.lastScroll else ms[n - 1].at
  {
    if n > j + 1 {
      StoresAreSeen(ms, j, n - 1);
    }
  }

  lemma {:induction false} NothingStoredAhead(ms: seq<Micro>, n: nat)
    requires 0 < n <= |ms| && MicroOrdered(ms)
    ensures SplitAfter(ms, n).focus.lastScroll <= ms[n - 1].at
  {
    if n > 1 {
      NothingStoredAhead(ms, n - 1);
      assert ms[n - 2].at <= ms[n - 1].at;
    }
  }

  // Far from where the clock would wrap.
  ghost predicate FarFromWrap(ms: seq<Micro>) {
    forall i :: 0 <= i < |ms| ==> ms[i].at < U64 - SCROLL_TTL
  }

  // The test of the send that reads the clock at j and decides at i.
  ghost predicate SplitTest(ms: seq<Micro>, j: nat, i: nat)
    requires MicroOrdered(ms) && DecidesBy(ms, j, i)
  {
    LooksStale(SplitAfter(ms, i).focus.lastScroll, SplitAfter(ms, i).now)
  }

  // The test of an atomic send with the clock reading of j that runs right after act k.
  ghost predicate TestAfter(ms: seq<Micro>, j: nat, k: nat)
    requires MicroOrdered(ms) && j <= k < |ms|
  {
    LooksStale(SplitAfter(ms, k + 1).focus.lastScroll, ms[j].at)
  }

  // A store newer than the clock reading of j comes before act i.
  ghost predicate NewerBetween(ms: seq<Micro>, j: nat, i: nat)
    requires i <= |ms|
  {
    exists k :: j < k < i && ms[k].at > ms[j].at
  }

  // The send is torn: its user scrolls between its two reads, later than its clock reading, and
  // had not been away from the device before.
  ghost predicate Torn(ms: seq<Micro>, j: nat, i: nat)
    requires MicroOrdered(ms) && DecidesBy(ms, j, i)
  {
    NewerBetween(ms, j, i) && !TestAfter(ms, j, j)
  }

  // The test as a function of the last store before the clock is read and the last one before
  // the decision.
  lemma SplitTestIs(ms: seq<Micro>, j: nat, i: nat)
    requires MicroOrdered(ms) && DecidesBy(ms, j, i) && FarFromWrap(ms)
    ensures var last := SplitAfter(ms, i).focus.lastScroll;
            && SplitAfter(ms, i).now == ms[j].at
            && (last > ms[j].at <==> NewerBetween(ms, j, i))
            && (SplitTest(ms, j, i) <==> last > ms[j].at || (last > 0 && ms[j].at - last > SCROLL_TTL))
  {
    StoresAreSeen(ms, j, i);
    if j > 0 {
      NothingStoredAhead(ms, j);
      assert ms[j - 1].at <= ms[j].at;
    }
  }

  // Act k is no later than the clock reading of j, so a send with that reading can run after it.
  ghost predicate InPlace(ms: seq<Micro>, j: nat, k: nat)
    requires j <= k < |ms|
  {
    ms[k].at <= ms[j].at
  }

  /** What atomicity buys. The test of a send is the test of an atomic send with the same clock
      reading, at some place among the stores that the times allow, if and only if the send is
      not torn. */
  lemma SplitTestIsAtomicIff(ms: seq<Micro>, j: nat, i: nat)
    requires MicroOrdered(ms) && DecidesBy(ms, j, i) && FarFromWrap(ms)
    ensures (exists k :: j <= k < i && InPlace(ms, j, k) && (TestAfter(ms, j, k) <==> SplitTest(ms, j, i)))
            <==> !Torn(ms, j, i)
  {
    SplitTestIs(ms, j, i);
    if NewerBetween(ms, j, i) {
      assert InPlace(ms, j, j);
      forall k | j < k < i && InPlace(ms, j, k) ensures !TestAfter(ms, j, k) {
        StoresAreSeen(ms, j, k + 1);
        assert ms[k].at == ms[j].at;
      }
    } else {
      assert InPlace(ms, j, i - 1) && (TestAfter(ms, j, i - 1) <==> SplitTest(ms, j, i));
    }
  }

  // The test of an atomic send that reads the clock at time c right after act k.
  ghost predicate TestAt(ms: seq<Micro>, k: nat, c: nat)
    requires MicroOrdered(ms) && k < |ms| && c < U64
  {
    LooksStale(SplitAfter(ms, k + 1).focus.lastScroll, c)
  }

  /** Nor does it help to let the atomic send read a clock of its own: the test differs from that
      of a send at the moment of the reading and from that of a send at the moment of the decision
      if and only if the send is torn and decided within 120 ms of the last store, or its user
      scrolled in the very millisecond of its reading, was away before, and the decision came more
      than 120 ms later. */
  lemma DiffersFromBothIff(ms: seq<Micro>, j: nat, i: nat)
    requires MicroOrdered(ms) && DecidesBy(ms, j, i) && FarFromWrap(ms)
    ensures var last := SplitAfter(ms, i).focus.lastScroll;
            (SplitTest(ms, j, i) != TestAt(ms, j, ms[j].at) && SplitTest(ms, j, i) != TestAt(ms, i - 1, ms[i].at))
            <==> if NewerBetween(ms, j, i) then Torn(ms, j, i) && ms[i].at - last <= SCROLL_TTL
                 else i > j + 1 && TestAfter(ms, j, j) && ms[i].at - ms[j].at > SCROLL_TTL
  {
    SplitTestIs(ms, j, i);
    StoresAreSeen(ms, j, i);
    NothingStoredAhead(ms, i);
    assert ms[j].at <= ms[i - 1].at <= ms[i].at;
    NothingStoredAhead(ms, j + 1);
    var last := SplitAfter(ms, i).focus.lastScroll;
    assert TestAt(ms, i - 1, ms[i].at) <==> last > 0 && ms[i].at - last > SCROLL_TTL;
    if NewerBetween(ms, j, i) {
    } else if i > j + 1 {
      assert last == ms[i - 1].at == ms[j].at && !SplitTest(ms, j, i);
    }
  }

  ghost function ScrollDuringSend(): seq<Micro> {
    [Store(1), ReadClock(200), Decide(200), Store(950), ReadClock(1000), Store(1001), Decide(1001)]
  }

  lemma ScrollDuringSendIsOrdered()
    ensures MicroOrdered(ScrollDuringSend()) && FarFromWrap(ScrollDuringSend())
    ensures DecidesBy(ScrollDuringSend(), 4, 6)
  {
  }

  /** A run in which the verdict is wrong. A host that scrolled at 1 ms blurs with a send at 200
      and scrolls again at 950 and at 1001; a send that reads the clock at 1000 and decides after
      the last of these is suppressed, while a send at 1000 before it and a send at 1001 after it
      are both injected. */
  lemma SendDuringAScrollIsSuppressed()
    ensures MicroOrdered(ScrollDuringSend()) && DecidesBy(ScrollDuringSend(), 4, 6) && Torn(ScrollDuringSend(), 4, 6)
    ensures SplitAfter(ScrollDuringSend(), 4).focus == FocusState(950, 200)
    ensures SplitAfter(ScrollDuringSend(), 6) == Split(FocusState(1001, 200), 1000)
    ensures Judge(FocusState(1001, 200), 1000).1 == Suppress
    ensures Judge(FocusState(950, 200), 1000).1 == Inject && Judge(FocusState(1001, 200), 1001).1 == Inject
  {
    var ms := ScrollDuringSend();
    ScrollDuringSendIsOrdered();
    assert SplitAfter(ms, 2) == Split(FocusState(1, 0), 200);
    assert SplitAfter(ms, 4) == Split(FocusState(950, 200), 200);
    assert SplitAfter(ms, 5) == Split(FocusState(950, 200), 1000);
    assert ms[5].at > ms[4].at;
  }

  // --- Traces without torn sends are atomic -------------------------------------------------

  ghost predicate EveryDecisionHasRead(ms: seq<Micro>) {
    forall i :: 0 <= i < |ms| && ms[i].Decide? ==> exists j :: DecidesBy(ms, j, i)
  }

  ghost predicate NoneTorn(ms: seq<Micro>)
    requires MicroOrdered(ms)
  {
    forall j, i :: DecidesBy(ms, j, i) ==> !Torn(ms, j, i)
  }

  // What the decisions of a split trace are, and those of a trace of atomic sends.
  ghost function SplitVerdicts(ms: seq<Micro>, n: nat): seq<Verdict>
    requires n <= |ms| && MicroOrdered(ms)
  {
    if n == 0 then []
    else SplitVerdicts(ms, n - 1) + SplitVerdict(SplitAfter(ms, n - 1), ms[n - 1])
  }

  ghost function SplitVerdict(s: Split, m: Micro): seq<Verdict>
    requires s.focus.lastScroll < U64 && s.focus.lastBlur < U64 && s.now < U64
  {
    if m.Decide? then [Judge(s.focus, s.now).1] else []
  }

  ghost function Verdicts(acts: seq<Act>, n: nat): seq<Verdict>
    requires n <= |acts| && TimeOrdered(acts)
  {
    if n == 0 then []
    else Verdicts(acts, n - 1) + VerdictOf(After(acts, n - 1), acts[n - 1])
  }

  ghost function VerdictOf(f: FocusState, a: Act): seq<Verdict>
    requires f.lastScroll < U64 && f.lastBlur < U64 && a.at < U64
  {
    if a.Send? then [Judge(f, a.at).1] else []
  }

  // The stores of a split trace and the local scrolls of an atomic one, in order; and the clock
  // readings decided by and the times of the sends.
  ghost function Stored(ms: seq<Micro>, n: nat): seq<nat>
    requires n <= |ms|
  {
    if n == 0 then [] else Stored(ms, n - 1) + if ms[n - 1].Store? then [ms[n - 1].at] else []
  }

  ghost function Readings(ms: seq<Micro>, n: nat): seq<nat>
    requires n <= |ms| && MicroOrdered(ms)
  {
    if n == 0 then []
    else Readings(ms, n - 1) + if ms[n - 1].Decide? then [SplitAfter(ms, n - 1).now] else []
  }

  ghost function Scrolls(acts: seq<Act>): seq<nat> {
    if acts == [] then []
    else
      Scrolls(acts[..|acts| - 1])
      + if acts[|acts| - 1].LocalScroll? then [acts[|acts| - 1].at] else []
  }

  ghost function Sends(acts: seq<Act>): seq<nat> {
    if acts == [] then []
    else Sends(acts[..|acts| - 1]) + if acts[|acts| - 1].Send? then [acts[|acts| - 1].at] else []
  }

  // Acts that go on from a given state, with what they make of it.
  datatype Line = Line(acts: seq<Act>, focus: FocusState, verdicts: seq<Verdict>)

  ghost predicate Holds(l: Line) {
    && TimeOrdered(l.acts)
    && l.focus == After(l.acts, |l.acts|)
    && l.verdicts == Verdicts(l.acts, |l.acts|)
  }

  lemma OrderedSnoc(acts: seq<Act>, a: Act)
    requires TimeOrdered(acts) && a.at < U64 && forall b :: b in acts ==> b.at <= a.at
    ensures TimeOrdered(acts + [a])
  {
    var more := acts + [a];
    forall i, j | 0 <= i <= j < |more| ensures more[i].at <= more[j].at {
      if j == |acts| && i < |acts| {
        assert more[i] == acts[i] && acts[i] in acts;
      }
    }
  }

  lemma ListsSnoc(acts: seq<Act>, a: Act)
    ensures Scrolls(acts + [a]) == Scrolls(acts) + (if a.LocalScroll? then [a.at] else [])
    ensures Sends(acts + [a]) == Sends(acts) + (if a.Send? then [a.at] else [])
  {
    assert (acts + [a])[..|acts|] == acts;
  }

  // One act more at the end.
  lemma LineSnoc(l: Line, a: Act) returns (l': Line)
    requires Holds(l) && a.at < U64 && forall b :: b in l.acts ==> b.at <= a.at
    ensures Holds(l') && l'.acts == l.acts + [a]
    ensures l'.focus == FocusStep(l.focus, a) && l'.verdicts == l.verdicts + VerdictOf(l.focus, a)
  {
    var acts := l.acts + [a];
    OrderedSnoc(l.acts, a);
    PrefixIsSame(l.acts, acts, |l.acts|);
    l' := Line(acts, FocusStep(l.focus, a), l.verdicts + VerdictOf(l.focus, a));
  }

  lemma {:induction false} PrefixIsSame(acts: seq<Act>, more: seq<Act>, n: nat)
    requires n <= |acts| <= |more| && more[..|acts|] == acts && TimeOrdered(acts) && TimeOrdered(more)
    ensures After(more, n) == After(acts, n) && Verdicts(more, n) == Verdicts(acts, n)
  {
    if n > 0 {
      PrefixIsSame(acts, more, n - 1);
      assert more[n - 1] == more[..|acts|][n - 1];
    }
  }

  ghost predicate Sorted(ts: seq<nat>) {
    && (forall i :: 0 <= i < |ts| ==> ts[i] < U64)
    && (forall i, j :: 0 <= i <= j < |ts| ==> ts[i] <= ts[j])
  }

  // No act of the line is later than time t.
  ghost predicate Until(l: Line, t: nat) {
    forall a :: a in l.acts ==> a.at <= t
  }

  lemma AppendOne(l: Line, t: nat) returns (l': Line)
    requires Holds(l) && Until(l, t) && t < U64
    ensures Holds(l') && Until(l', t)
    ensures l'.focus == l.focus.(lastScroll := t) && l'.verdicts == l.verdicts
    ensures Scrolls(l'.acts) == Scrolls(l.acts) + [t] && Sends(l'.acts) == Sends(l.acts)
  {
    l' := LineSnoc(l, LocalScroll(t));
    ListsSnoc(l.acts, LocalScroll(t));
  }

  // The line goes on to l' with stores, up to the last of them.
  ghost predicate GoesOn(l: Line, later: seq<nat>, l': Line) {
    && Holds(l')
    && l'.focus == (if later == [] then l.focus else l.focus.(lastScroll := later[|later| - 1]))
    && l'.verdicts == l.verdicts
    && Scrolls(l'.acts) == Scrolls(l.acts) + later
    && Sends(l'.acts) == Sends(l.acts)
  }

  lemma GoesOnSnoc(l: Line, later: seq<nat>, l': Line, t: nat) returns (l'': Line)
    requires GoesOn(l, later, l') && Until(l', t) && t < U64
    ensures GoesOn(l, later + [t], l'') && Until(l'', t)
  {
    l'' := AppendOne(l', t);
    assert Scrolls(l.acts) + later + [t] == Scrolls(l.acts) + (later + [t]);
  }

  lemma UntilLater(l: Line, t: nat, u: nat)
    requires Until(l, t) && t <= u
    ensures Until(l, u)
  {
  }

  // The stores since the last reading follow the line.
  lemma {:induction false} Append(l: Line, later: seq<nat>, start: nat, end: nat) returns (l': Line)
    requires Holds(l) && Sorted(later) && Until(l, start) && start <= end < U64
    requires forall i :: 0 <= i < |later| ==> start <= later[i] <= end
    ensures GoesOn(l, later, l') && Until(l', end)
  {
    if later == [] {
      l' := l;
    } else {
      var n := |later| - 1;
      var front := Append(l, later[..n], start, later[n]);
      l' := GoesOnSnoc(l, later[..n], front, later[n]);
      assert later[..n] + [later[n]] == later;
      UntilLater(l', later[n], end);
    }
    UntilLater(l, start, end);
  }

  // The send whose clock was read at j has not decided yet after n acts.
  ghost predicate Open(ms: seq<Micro>, j: nat, n: nat) {
    j < n <= |ms| && ms[j].ReadClock? && forall k :: j < k < n ==> ms[k].Store?
  }

  // The stores in `later` come after the line, and nothing comes after act n - 1.
  ghost predicate Shaped(ms: seq<Micro>, n: nat, done: Line, later: seq<nat>)
    requires n <= |ms| && MicroOrdered(ms)
  {
    && Holds(done) && Sorted(later) && done.focus.lastScroll < U64 && done.focus.lastBlur < U64
    && (later != [] ==> n > 0 && Until(done, later[0]) && later[|later| - 1] <= ms[n - 1].at)
    && (n > 0 ==> Until(done, ms[n - 1].at)) && (n == 0 ==> done.acts == [])
  }

  // The line and then the stores in `later` have done to the machine what the first n acts have.
  ghost predicate Matched(ms: seq<Micro>, n: nat, done: Line, later: seq<nat>)
    requires n <= |ms| && MicroOrdered(ms)
  {
    && SplitAfter(ms, n).focus == (if later == [] then done.focus else done.focus.(lastScroll := later[|later| - 1]))
    && done.verdicts == SplitVerdicts(ms, n)
    && Scrolls(done.acts) + later == Stored(ms, n)
    && Sends(done.acts) == Readings(ms, n)
  }

  // `done` and then `later` are an atomic order of the first n acts.
  ghost predicate Orders(ms: seq<Micro>, n: nat, done: Line, later: seq<nat>)
    requires n <= |ms| && MicroOrdered(ms)
  {
    Shaped(ms, n, done, later) && Matched(ms, n, done, later)
  }

  // While a send is open the line ends where its clock was read.
  ghost predicate EndsAt(ms: seq<Micro>, j: nat, n: nat, done: Line, later: seq<nat>)
    requires j < n <= |ms| && MicroOrdered(ms)
  {
    && Until(done, ms[j].at)
    && done.focus.lastScroll == SplitAfter(ms, j + 1).focus.lastScroll
    && (forall t :: t in later ==> ms[j].at <= t)
    && (forall t :: t in later ==> exists k :: j < k < n && ms[k].at == t)
  }

  // A time by which the line has ended and before which nothing in `later` comes.
  ghost function Start(done: Line, later: seq<nat>, end: nat): nat {
    if later == [] then end else later[0]
  }

  lemma OrdersStore(ms: seq<Micro>, n: nat, done: Line, later: seq<nat>)
    requires n < |ms| && MicroOrdered(ms) && ms[n].Store? && Orders(ms, n, done, later)
    ensures Orders(ms, n + 1, done, later + [ms[n].at])
  {
    if n > 0 {
      assert ms[n - 1].at <= ms[n].at;
    }
    assert Scrolls(done.acts) + (later + [ms[n].at]) == (Scrolls(done.acts) + later) + [ms[n].at];
  }

  lemma EndsAtStore(ms: seq<Micro>, j: nat, n: nat, done: Line, later: seq<nat>)
    requires j < n < |ms| && MicroOrdered(ms) && ms[n].Store? && EndsAt(ms, j, n, done, later)
    ensures EndsAt(ms, j, n + 1, done, later + [ms[n].at])
  {
    forall t | t in later + [ms[n].at] ensures ms[j].at <= t && exists k :: j < k < n + 1 && ms[k].at == t {
      if t in later {
        var k :| j < k < n && ms[k].at == t;
      } else {
        assert ms[n].at == t;
      }
    }
  }

  ghost predicate OpenEnds(ms: seq<Micro>, n: nat, done: Line, later: seq<nat>)
    requires MicroOrdered(ms)
  {
    forall j :: Open(ms, j, n) ==> EndsAt(ms, j, n, done, later)
  }

  lemma OpenStore(ms: seq<Micro>, m: nat, n: nat, done: Line, later: seq<nat>)
    requires n == m + 1 <= |ms| && MicroOrdered(ms) && ms[m].Store? && OpenEnds(ms, m, done, later)
    ensures OpenEnds(ms, n, done, later + [ms[m].at])
  {
    forall j | Open(ms, j, n) ensures EndsAt(ms, j, n, done, later + [ms[m].at]) {
      assert Open(ms, j, m);
      EndsAtStore(ms, j, m, done, later);
    }
  }

  lemma OpenRead(ms: seq<Micro>, m: nat, n: nat, done: Line)
    requires n == m + 1 <= |ms| && MicroOrdered(ms) && ms[m].ReadClock? && EndsAt(ms, m, n, done, [])
    ensures OpenEnds(ms, n, done, [])
  {
    forall j | Open(ms, j, n) ensures j == m {
    }
  }

  lemma OrdersRead(ms: seq<Micro>, n: nat, done: Line, later: seq<nat>) returns (done': Line)
    requires n < |ms| && MicroOrdered(ms) && ms[n].ReadClock? && Orders(ms, n, done, later)
    ensures Orders(ms, n + 1, done', []) && EndsAt(ms, n, n + 1, done', [])
  {
    if n > 0 {
      assert ms[n - 1].at <= ms[n].at;
    }
    done' := Append(done, later, Start(done, later, ms[n].at), ms[n].at);
  }

  lemma DecideIs(ms: seq<Micro>, j: nat, n: nat)
    requires MicroOrdered(ms) && DecidesBy(ms, j, n)
    ensures var now, f := ms[j].at, SplitAfter(ms, n).focus;
            && SplitAfter(ms, n + 1).focus == FocusStep(f, Send(now))
            && SplitVerdicts(ms, n + 1) == SplitVerdicts(ms, n) + VerdictOf(f, Send(now))
            && Readings(ms, n + 1) == Readings(ms, n) + [now]
            && Stored(ms, n + 1) == Stored(ms, n)
  {
    StoresAreSeen(ms, j, n);
  }

  lemma SendOne(l: Line, now: nat) returns (l': Line)
    requires Holds(l) && Until(l, now) && now < U64
    requires l.focus.lastScroll < U64 && l.focus.lastBlur < U64
    ensures Holds(l') && Until(l', now)
    ensures l'.focus == FocusStep(l.focus, Send(now)) && l'.verdicts == l.verdicts + VerdictOf(l.focus, Send(now))
    ensures Scrolls(l'.acts) == Scrolls(l.acts) && Sends(l'.acts) == Sends(l.acts) + [now]
  {
    l' := LineSnoc(l, Send(now));
    ListsSnoc(l.acts, Send(now));
  }

  // A send takes its place in the line after the stores that came while it was open, when none
  // of them is newer than its clock reading.
  lemma DecideAfter(ms: seq<Micro>, j: nat, n: nat, done: Line, later: seq<nat>) returns (done': Line)
    requires MicroOrdered(ms) && DecidesBy(ms, j, n) && !NewerBetween(ms, j, n)
    requires Orders(ms, n, done, later) && EndsAt(ms, j, n, done, later)
    ensures Orders(ms, n + 1, done', [])
  {
    var now := ms[j].at;
    assert now <= ms[n].at;
    forall t | t in later ensures t <= now {
      var k :| j < k < n && ms[k].at == t;
    }
    var line := Append(done, later, Start(done, later, now), now);
    done' := SendOne(line, now);
    DecideIs(ms, j, n);
  }

  lemma ShapedDecide(ms: seq<Micro>, j: nat, n: nat, done: Line, later: seq<nat>, done': Line)
    requires MicroOrdered(ms) && DecidesBy(ms, j, n)
    requires Shaped(ms, n, done, later) && EndsAt(ms, j, n, done, later)
    requires Holds(done') && Until(done', ms[j].at) && done'.focus.lastScroll < U64 && done'.focus.lastBlur < U64
    ensures Shaped(ms, n + 1, done', later)
  {
    assert ms[j].at <= ms[n - 1].at <= ms[n].at;
    UntilLater(done', ms[j].at, ms[n].at);
    if later != [] {
      assert later[0] in later;
      UntilLater(done', ms[j].at, later[0]);
    }
  }

  // A send whose test was right when it read the clock takes its place before them.
  lemma DecideBefore(ms: seq<Micro>, j: nat, n: nat, done: Line, later: seq<nat>) returns (done': Line)
    requires MicroOrdered(ms) && DecidesBy(ms, j, n)
    requires Orders(ms, n, done, later) && EndsAt(ms, j, n, done, later)
    requires LooksStale(done.focus.lastScroll, ms[j].at) <==> LooksStale(SplitAfter(ms, n).focus.lastScroll, ms[j].at)
    ensures Orders(ms, n + 1, done', later)
  {
    done' := SendOne(done, ms[j].at);
    ShapedDecide(ms, j, n, done, later, done');
    DecideIs(ms, j, n);
  }

  lemma AtomicDecide(ms: seq<Micro>, m: nat, before: Line, stores: seq<nat>) returns (done: Line, later: seq<nat>)
    requires MicroOrdered(ms) && FarFromWrap(ms) && EveryDecisionHasRead(ms) && NoneTorn(ms)
    requires m < |ms| && ms[m].Decide? && Orders(ms, m, before, stores) && OpenEnds(ms, m, before, stores)
    ensures Orders(ms, m + 1, done, later)
  {
    var j :| DecidesBy(ms, j, m);
    assert Open(ms, j, m);
    if NewerBetween(ms, j, m) {
      SplitTestIs(ms, j, m);
      done := DecideBefore(ms, j, m, before, stores);
      later := stores;
    } else {
      done := DecideAfter(ms, j, m, before, stores);
      later := [];
    }
  }

  lemma AtomicStep(ms: seq<Micro>, m: nat, n: nat, before: Line, stores: seq<nat>)
      returns (done: Line, later: seq<nat>)
    requires MicroOrdered(ms) && FarFromWrap(ms) && EveryDecisionHasRead(ms) && NoneTorn(ms)
    requires n == m + 1 <= |ms| && Orders(ms, m, before, stores) && OpenEnds(ms, m, before, stores)
    ensures Orders(ms, n, done, later) && OpenEnds(ms, n, done, later)
  {
    match ms[m] {
      case Store(t) =>
        OrdersStore(ms, m, before, stores);
        OpenStore(ms, m, n, before, stores);
        done, later := before, stores + [t];
      case ReadClock(_) =>
        done := OrdersRead(ms, m, before, stores);
        OpenRead(ms, m, n, done);
        later := [];
      case Decide(_) =>
        done, later := AtomicDecide(ms, m, before, stores);
    }
  }

  ghost function NoLine(): Line {
    Line([], FocusState(0, 0), [])
  }

  lemma {:induction false} AtomicPrefix(ms: seq<Micro>, n: nat) returns (done: Line, later: seq<nat>)
    requires MicroOrdered(ms) && FarFromWrap(ms) && EveryDecisionHasRead(ms) && NoneTorn(ms) && n <= |ms|
    ensures Orders(ms, n, done, later) && OpenEnds(ms, n, done, later)
  {
    if n == 0 {
      done, later := NoLine(), [];
    } else {
      var before, stores := AtomicPrefix(ms, n - 1);
      done, later := AtomicStep(ms, n - 1, n, before, stores);
    }
  }

  /** A trace of split sends none of which is torn is a trace of atomic sends: there is a
      time-ordered trace with the same local scrolls and with sends at the same clock readings, in
      the same order, that reaches the same verdicts. So everything proved of atomic sends above
      holds of it. */
  lemma AtomicOrder(ms: seq<Micro>) returns (acts: seq<Act>)
    requires MicroOrdered(ms) && FarFromWrap(ms) && EveryDecisionHasRead(ms) && NoneTorn(ms)
    ensures TimeOrdered(acts)
    ensures Scrolls(acts) == Stored(ms, |ms|) && Sends(acts) == Readings(ms, |ms|)
    ensures Verdicts(acts, |acts|) == SplitVerdicts(ms, |ms|)
    ensures After(acts, |acts|) == SplitAfter(ms, |ms|).focus
  {
    var done, later := AtomicPrefix(ms, |ms|);
    var line := Append(done, later, Start(done, later, U64 - 1), U64 - 1);
    acts := line.acts;
  }
}
