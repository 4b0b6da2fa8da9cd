/** Scroll unit conversion: libinput deltas to hi-res units to wheel clicks
    (`src/daemon/scroll.rs`, `src/scroll/sender.rs`). A delta is a real number. */
module ScrollMath {

  const I32_MIN: int := -0x8000_0000
  const I32_MAX: int := 0x7fff_ffff

  // `/` on i32 rounds toward zero.
  function TruncDiv(a: int, b: int): int
    requires b > 0
  {
    if a >= 0 then a / b else -((-a) / b)
  }

  function Trunc(r: real): int {
    if r >= 0.0 then r.Floor else -((-r).Floor)
  }

  // `as i32` rounds toward zero and saturates.
  function ToI32(r: real): int {
    var t := Trunc(r);
    if t < I32_MIN then I32_MIN else if t > I32_MAX then I32_MAX else t
  }

  function HiRes(delta: real): int {
    ToI32(delta * 8.0)
  }

  function Clicks(hiRes: int): int {
    TruncDiv(hiRes, 120)
  }

  // The sign and speed a source applies to a captured delta.
  function Scale(reverse: bool, modifier: real, delta: real): real {
    if reverse then -delta * modifier else delta * modifier
  }

  // --- Totals over a sequence of events -----------------------------------------------------

  ghost function SumUnits(ds: seq<real>): real {
    if ds == [] then 0.0 else ds[0] * 8.0 + SumUnits(ds[1..])
  }

  ghost function SumHiRes(ds: seq<real>): int {
    if ds == [] then 0 else HiRes(ds[0]) + SumHiRes(ds[1..])
  }

  ghost function SumClicks(ds: seq<real>): int {
    if ds == [] then 0 else Clicks(HiRes(ds[0])) + SumClicks(ds[1..])
  }

  ghost predicate InRange(d: real) {
    I32_MIN as real <= d * 8.0 <= I32_MAX as real
  }

  ghost predicate SameDirection(ds: seq<real>) {
    || (forall d :: d in ds ==> d >= 0.0)
    || (forall d :: d in ds ==> d <= 0.0)
  }

  ghost function AbsReal(r: real): real { if r >= 0.0 then r else -r }
  ghost function AbsInt(i: int): nat { if i >= 0 then i else -i }

  lemma OneEvent(d: real)
    requires InRange(d)
    ensures d >= 0.0 ==> 0.0 <= d * 8.0 - HiRes(d) as real < 1.0 && 0 <= HiRes(d)
    ensures d <= 0.0 ==> 0.0 <= HiRes(d) as real - d * 8.0 < 1.0 && HiRes(d) <= 0
    ensures HiRes(d) >= 0 ==> 0 <= HiRes(d) - 120 * Clicks(HiRes(d)) <= 119 && 0 <= Clicks(HiRes(d))
    ensures HiRes(d) <= 0 ==> -119 <= HiRes(d) - 120 * Clicks(HiRes(d)) <= 0 && Clicks(HiRes(d)) <= 0
  {
  }

  // --- Exactly what is lost ------------------------------------------------------------------

  // What the division into clicks leaves over, event by event.
  ghost function SumRest(ds: seq<real>): nat {
    if ds == [] then 0 else AbsInt(HiRes(ds[0])) % 120 + SumRest(ds[1..])
  }

  // What the cast to i32 cuts off, event by event.
  ghost function Fraction(d: real): real {
    AbsReal(d * 8.0) - AbsReal(d * 8.0).Floor as real
  }

  ghost function SumFraction(ds: seq<real>): real {
    if ds == [] then 0.0 else Fraction(ds[0]) + SumFraction(ds[1..])
  }

  ghost predicate Integral(r: real) {
    r == r.Floor as real
  }

  // One direction at a time, `up` for deltas that are not negative.
  ghost predicate Towards(ds: seq<real>, up: bool) {
    forall d :: d in ds ==> if up then d >= 0.0 else d <= 0.0
  }

  lemma ClickSplit(d: real)
    ensures AbsInt(HiRes(d)) == 120 * AbsInt(Clicks(HiRes(d))) + AbsInt(HiRes(d)) % 120
    ensures d >= 0.0 ==> HiRes(d) >= 0 && Clicks(HiRes(d)) >= 0
    ensures d <= 0.0 ==> HiRes(d) <= 0 && Clicks(HiRes(d)) <= 0
  {
  }

  lemma FloorIs(r: real)
    ensures r.Floor as real <= r < r.Floor as real + 1.0
    ensures (-r).Floor == -r.Floor || (-r).Floor == -r.Floor - 1
    ensures (-r).Floor == -r.Floor <==> Integral(r)
  {
  }

  lemma UnitSplit(d: real)
    requires InRange(d)
    ensures AbsReal(d * 8.0) == AbsInt(HiRes(d)) as real + Fraction(d)
    ensures 0.0 <= Fraction(d) < 1.0
    ensures Fraction(d) == 0.0 <==> Integral(d * 8.0)
    ensures HiRes(d) == 0 <==> AbsReal(d * 8.0) < 1.0
  {
    var r := AbsReal(d * 8.0);
    FloorIs(r);
    FloorIs(d * 8.0);
    FloorIs(-d * 8.0);
    assert AbsInt(HiRes(d)) == r.Floor;
  }

  lemma {:induction false} ClickSums(ds: seq<real>, up: bool)
    requires Towards(ds, up)
    ensures if up then SumHiRes(ds) >= 0 && SumClicks(ds) >= 0 else SumHiRes(ds) <= 0 && SumClicks(ds) <= 0
    ensures AbsInt(SumHiRes(ds)) == 120 * AbsInt(SumClicks(ds)) + SumRest(ds)
  {
    if ds != [] {
      assert ds[0] in ds && forall d :: d in ds[1..] ==> d in ds;
      ClickSplit(ds[0]);
      ClickSums(ds[1..], up);
    }
  }

  lemma {:induction false} NoRest(ds: seq<real>)
    ensures SumRest(ds) == 0 <==> forall d :: d in ds ==> HiRes(d) % 120 == 0
  {
    if ds != [] {
      NoRest(ds[1..]);
      assert ds[0] in ds && forall d :: d in ds <==> d == ds[0] || d in ds[1..];
      WholeEitherWay(HiRes(ds[0]));
    }
  }

  lemma WholeEitherWay(h: int)
    ensures AbsInt(h) % 120 == 0 <==> h % 120 == 0
  {
  }

  lemma {:induction false} NoClicks(ds: seq<real>, up: bool)
    requires Towards(ds, up)
    ensures SumClicks(ds) == 0 <==> forall d :: d in ds ==> AbsInt(HiRes(d)) < 120
  {
    if ds != [] {
      assert ds[0] in ds && forall d :: d in ds <==> d == ds[0] || d in ds[1..];
      NoClicks(ds[1..], up);
      ClickSums(ds[1..], up);
      ClickSplit(ds[0]);
      assert Clicks(HiRes(ds[0])) == 0 <==> AbsInt(HiRes(ds[0])) < 120;
    }
  }

  lemma {:induction false} UnitSums(ds: seq<real>, up: bool)
    requires Towards(ds, up) && forall d :: d in ds ==> InRange(d)
    ensures if up then SumUnits(ds) >= 0.0 && SumHiRes(ds) >= 0 else SumUnits(ds) <= 0.0 && SumHiRes(ds) <= 0
    ensures AbsReal(SumUnits(ds)) == AbsInt(SumHiRes(ds)) as real + SumFraction(ds)
    ensures 0.0 <= SumFraction(ds)
    ensures SumFraction(ds) == 0.0 <==> forall d :: d in ds ==> Integral(d * 8.0)
    ensures SumHiRes(ds) == 0 <==> forall d :: d in ds ==> AbsReal(d * 8.0) < 1.0
  {
    if ds != [] {
      assert ds[0] in ds && forall d :: d in ds <==> d == ds[0] || d in ds[1..];
      UnitSplit(ds[0]);
      UnitSums(ds[1..], up);
    }
  }

  /** Exactly what the division into clicks loses over events in one direction: the rests of the
      single events. So the clicks are those the hi-res total is worth if and only if the rests
      add up to less than one click, nothing is lost if and only if every event is a whole number
      of clicks, and there is no click at all if and only if every event is smaller than one. */
  lemma ClicksLostIff(ds: seq<real>)
    requires SameDirection(ds)
    ensures AbsInt(SumHiRes(ds)) == 120 * AbsInt(SumClicks(ds)) + SumRest(ds)
    ensures AbsInt(SumClicks(ds)) == AbsInt(SumHiRes(ds)) / 120 <==> SumRest(ds) < 120
    ensures AbsInt(SumHiRes(ds)) == 120 * AbsInt(SumClicks(ds)) <==> forall d :: d in ds ==> HiRes(d) % 120 == 0
    ensures SumClicks(ds) == 0 <==> forall d :: d in ds ==> AbsInt(HiRes(d)) < 120
  {
    var up := forall d :: d in ds ==> d >= 0.0;
    ClickSums(ds, up);
    NoRest(ds);
    NoClicks(ds, up);
  }

  /** Exactly what the cast to hi-res units loses over events in one direction: the fractions of
      the single events. The hi-res total is the exact total rounded down if and only if they add
      up to less than one unit, and the exact total itself if and only if every event is a whole
      number of units. */
  lemma UnitsLostIff(ds: seq<real>)
    requires SameDirection(ds) && forall d :: d in ds ==> InRange(d)
    ensures AbsReal(SumUnits(ds)) == AbsInt(SumHiRes(ds)) as real + SumFraction(ds)
    ensures AbsInt(SumHiRes(ds)) == AbsReal(SumUnits(ds)).Floor <==> SumFraction(ds) < 1.0
    ensures AbsInt(SumHiRes(ds)) as real == AbsReal(SumUnits(ds)) <==> forall d :: d in ds ==> Integral(d * 8.0)
    ensures 0.0 <= SumFraction(ds)
    ensures SumHiRes(ds) == 0 <==> forall d :: d in ds ==> AbsReal(d * 8.0) < 1.0
  {
    UnitSums(ds, forall d :: d in ds ==> d >= 0.0);
  }

  lemma {:induction false} LossBounds(ds: seq<real>)
    ensures SumRest(ds) <= 119 * |ds|
    ensures SumFraction(ds) <= |ds| as real && (ds != [] ==> SumFraction(ds) < |ds| as real)
  {
    if ds != [] {
      LossBounds(ds[1..]);
    }
  }

  /** Over one or more events in one direction, the hi-res total falls short of the exact total
      by less than one unit an event, and the clicks fall short of the hi-res total by at most
      119 units an event: no remainder is carried from one event to the next. */
  lemma ScrollTotals(ds: seq<real>)
    requires |ds| >= 1 && SameDirection(ds)
    requires forall d :: d in ds ==> InRange(d)
    ensures 0.0 <= AbsReal(SumUnits(ds)) - AbsInt(SumHiRes(ds)) as real < |ds| as real
    ensures 0 <= AbsInt(SumHiRes(ds)) - 120 * AbsInt(SumClicks(ds)) <= 119 * |ds|
  {
    UnitsLostIff(ds);
    ClicksLostIff(ds);
    LossBounds(ds);
  }

  /** The click bound is attained for every number of events: a slow scroll of n events can add
      up to 119 n units and produce no click at all. */
  lemma {:induction false} SlowScrollLosesEveryClick(n: nat)
    ensures var ds := seq(n, _ => 14.875);
            && (forall d :: d in ds ==> InRange(d))
            && SumHiRes(ds) == 119 * n && SumClicks(ds) == 0
  {
    var ds := seq(n, _ => 14.875);
    assert (14.875 * 8.0).Floor == 119;
    if n > 0 {
      SlowScrollLosesEveryClick(n - 1);
      assert ds[1..] == seq(n - 1, _ => 14.875);
    }
  }

  // What a source sends for the deltas it captures.
  ghost function ScaleAll(reverse: bool, modifier: real, ds: seq<real>): seq<real> {
    if ds == [] then [] else [Scale(reverse, modifier, ds[0])] + ScaleAll(reverse, modifier, ds[1..])
  }

  /** The settings of a source scale whole scrolls: the exact total sent is the exact total
      captured times the modifier, with the other sign if `scroll_reverse` is set. */
  lemma {:induction false} ScaledTotals(reverse: bool, modifier: real, ds: seq<real>)
    ensures |ScaleAll(reverse, modifier, ds)| == |ds|
    ensures SumUnits(ScaleAll(reverse, modifier, ds)) == (if reverse then -1.0 else 1.0) * modifier * SumUnits(ds)
  {
    if ds != [] {
      ScaledTotals(reverse, modifier, ds[1..]);
      var sign := (if reverse then -1.0 else 1.0) * modifier;
      assert ScaleAll(reverse, modifier, ds)[1..] == ScaleAll(reverse, modifier, ds[1..]);
      Distribute(sign, ds[0] * 8.0, SumUnits(ds[1..]));
      Reorder(sign, ds[0]);
      assert Scale(reverse, modifier, ds[0]) == sign * ds[0];
    }
  }

  lemma Distribute(a: real, x: real, y: real)
    ensures a * (x + y) == a * x + a * y
  {
  }

  lemma Reorder(a: real, x: real)
    ensures a * x * 8.0 == a * (x * 8.0)
  {
  }

  /** Flipping `scroll_reverse` negates the hi-res value a destination emits if and only if the
      value is not cut off at the ends of the i32 range; the clicks then flip as well. */
  lemma ReverseNegatesIff(modifier: real, delta: real)
    ensures var plain := HiRes(Scale(false, modifier, delta));
            var flipped := HiRes(Scale(true, modifier, delta));
            flipped == -plain <==> -I32_MAX <= Trunc(Scale(false, modifier, delta) * 8.0) <= I32_MAX
    ensures var plain := HiRes(Scale(false, modifier, delta));
            Clicks(-plain) == -Clicks(plain)
  {
  }

  /** A value that is cut off: 2^28 against the scroll direction becomes the least i32 value, and
      reversed the greatest one, which is not its negation. */
  lemma ReverseFailsWhenCutOff()
    ensures HiRes(Scale(false, 1.0, -268435456.0)) == I32_MIN
    ensures HiRes(Scale(true, 1.0, -268435456.0)) == I32_MAX == -I32_MIN - 1
  {
    assert Trunc(-2147483648.0) == I32_MIN && Trunc(2147483648.0) == -I32_MIN;
  }
}
