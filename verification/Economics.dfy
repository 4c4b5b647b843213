/** What a hosted token costs at a given utilisation, and the bisection for the break-even point. */
module Economics {
  datatype Assumptions = Assumptions(
    price: real, life: real, gpuWatts: real, systemWatts: real, idleWatts: real,
    tokensPerSecond: real, usdPerKwh: real, commodity: real)

  /** Dollars per million tokens; nothing served costs infinitely much, a zero lifetime raises. */
  datatype Cost = Usd(amount: real) | Infinite | ZeroDivision

  /** Electricity for a year of running at `watts`. */
  function YearOf(a: Assumptions, watts: real): real {
    watts / 1000.0 * 8760.0 * a.usdPerKwh
  }

  function FullyLoadedCost(a: Assumptions, u: real): Cost {
    var tokens := a.tokensPerSecond * u * 3600.0 * 24.0 * 365.0;
    if tokens <= 0.0 then Infinite
    else if a.life == 0.0 then ZeroDivision
    else
      var idle := a.idleWatts / 1000.0 * (8760.0 * (1.0 - u)) * a.usdPerKwh;
      var load := (a.gpuWatts + a.systemWatts) / 1000.0 * (8760.0 * u) * a.usdPerKwh;
      Usd((a.price / a.life + idle + load) / (tokens / 1000000.0))
  }

  /** The comparison the source makes, negated; a raise is not a break-even. */
  predicate BreaksEven(a: Assumptions, u: real) {
    var cost := FullyLoadedCost(a, u);
    cost.Usd? && cost.amount <= a.commodity
  }

  /** What a year costs before a single token is served: depreciation and idling throughout. */
  function Standing(a: Assumptions): real
    requires a.life != 0.0
  {
    a.price / a.life + YearOf(a, a.idleWatts)
  }

  /** Extra yearly cost of being busy rather than idle all year. */
  function Busy(a: Assumptions): real {
    YearOf(a, a.gpuWatts + a.systemWatts) - YearOf(a, a.idleWatts)
  }

  /** Millions of tokens in a fully utilised year. */
  function Millions(a: Assumptions): real { a.tokensPerSecond * 31.536 }

  /** What a fully utilised year earns at the commodity price, over that extra cost. */
  function Earned(a: Assumptions): real {
    a.commodity * Millions(a) - Busy(a)
  }

  predicate Running(a: Assumptions) { a.tokensPerSecond > 0.0 && a.life != 0.0 }

  /** The cost at every positive utilisation is a standing charge spread over the tokens. */
  lemma {:induction false} CostIsSpread(a: Assumptions, u: real)
    requires Running(a) && u > 0.0
    ensures Millions(a) * u > 0.0
    ensures FullyLoadedCost(a, u) == Usd((Standing(a) + Busy(a) * u) / (Millions(a) * u))
  {
    var idle := a.idleWatts / 1000.0 * (8760.0 * (1.0 - u)) * a.usdPerKwh;
    var load := (a.gpuWatts + a.systemWatts) / 1000.0 * (8760.0 * u) * a.usdPerKwh;
    assert a.tokensPerSecond * u * 3600.0 * 24.0 * 365.0 / 1000000.0 == Millions(a) * u;
    assert a.price / a.life + idle + load == Standing(a) + Busy(a) * u;
  }

  /** Breaking even is a linear condition on the utilisation. */
  lemma {:induction false} BreakEvenIff(a: Assumptions, u: real)
    requires Running(a) && u > 0.0
    ensures BreaksEven(a, u) <==> Standing(a) <= Earned(a) * u
  {
    CostIsSpread(a, u);
    assert a.commodity * (Millions(a) * u) - Busy(a) * u == Earned(a) * u;
  }

  // ---- how the cost moves with utilisation ----

  predicate AtMost(c: Cost, d: Cost) {
    d.Infinite? || (c.Usd? && d.Usd? && c.amount <= d.amount)
  }

  ghost predicate NeverRises(a: Assumptions) {
    forall u, v :: 0.0 <= u <= v <= 1.0 ==> AtMost(FullyLoadedCost(a, v), FullyLoadedCost(a, u))
  }

  lemma {:induction false} CostOrder(a: Assumptions, u: real, v: real)
    requires Running(a) && 0.0 < u < v
    ensures AtMost(FullyLoadedCost(a, v), FullyLoadedCost(a, u)) <==> Standing(a) >= 0.0
  {
  }

  lemma IdleNodeIsInfinite(a: Assumptions, u: real)
    requires u == 0.0 || (a.tokensPerSecond <= 0.0 && u >= 0.0)
    ensures FullyLoadedCost(a, u) == Infinite
  {
    assert a.tokensPerSecond * u <= 0.0;
  }

  /** Serving more never costs more per token exactly when standing idle is not profitable. */
  lemma {:induction false} NeverRisesIff(a: Assumptions)
    requires a.life != 0.0
    ensures NeverRises(a) <==> a.tokensPerSecond <= 0.0 || Standing(a) >= 0.0
  {
    if a.tokensPerSecond > 0.0 {
      CostOrder(a, 0.5, 1.0);
      if NeverRises(a) {
        assert AtMost(FullyLoadedCost(a, 1.0), FullyLoadedCost(a, 0.5));
      }
    }
    if a.tokensPerSecond <= 0.0 || Standing(a) >= 0.0 {
      forall u, v | 0.0 <= u <= v <= 1.0 ensures AtMost(FullyLoadedCost(a, v), FullyLoadedCost(a, u)) {
        if u == 0.0 || a.tokensPerSecond <= 0.0 {
          IdleNodeIsInfinite(a, u);
        } else if u < v {
          CostOrder(a, u, v);
        } else {
          CostIsSpread(a, u);
        }
      }
    }
  }

  // ---- bisection ----

  function Pow2(n: nat): (r: real)
    ensures r >= 1.0
  {
    if n == 0 then 1.0 else 2.0 * Pow2(n - 1)
  }

  /** Width of the search interval after `n` halvings. */
  function Width(n: nat): (r: real)
    ensures r > 0.0
  {
    if n == 0 then 1.0 - FLOOR else Width(n - 1) / 2.0
  }

  /** The interval after `n` halvings is the initial one over 2^n. */
  lemma {:induction false} WidthHalves(n: nat)
    ensures Width(n) * Pow2(n) == 1.0 - FLOOR
  {
    if n > 0 {
      WidthHalves(n - 1);
    }
  }

  const FLOOR: real := 0.000001

  const STEPS: nat := 200

  /** No break-even utilisation lies below `lo`. */
  ghost predicate Below(a: Assumptions, lo: real) {
    forall u :: 0.000001 <= u && BreaksEven(a, u) ==> lo <= u
  }

  lemma {:induction false} LosesAt(a: Assumptions, mid: real, u: real)
    requires Running(a) && BreaksEven(a, 1.0) && 0.0 < mid <= 1.0 && !BreaksEven(a, mid)
    requires FLOOR <= u && BreaksEven(a, u)
    ensures mid <= u
  {
    BreakEvenIff(a, 1.0);
    BreakEvenIff(a, mid);
    BreakEvenIff(a, u);
    LineCrossesOnce(Standing(a), Earned(a), u, mid);
  }

  // Where full utilisation breaks even, everything below a losing point loses.
  lemma {:induction false} LosesBelow(a: Assumptions, mid: real)
    requires Running(a) && BreaksEven(a, 1.0) && 0.0 < mid <= 1.0 && !BreaksEven(a, mid)
    ensures Below(a, mid)
  {
    forall u | FLOOR <= u && BreaksEven(a, u) ensures mid <= u { LosesAt(a, mid, u); }
  }

  lemma LineCrossesOnce(s: real, e: real, u: real, mid: real)
    requires s <= e && s <= e * u && s > e * mid && 0.0 < mid <= 1.0 && 0.0 < u
    ensures mid <= u
  {
    assert e < 0.0 ==> e * mid >= e;
    assert u < mid && e >= 0.0 ==> e * (mid - u) >= 0.0;
  }

  /** Not negative, and at most what `n` halvings leave of the interval from a millionth to one. */
  predicate AfterHalvings(gap: real, n: nat) {
    0.0 <= gap * Pow2(n) <= 1.0 - 0.000001
  }

  lemma {:induction false} WithinWidth(x: real, n: nat)
    requires 0.0 <= x <= Width(n)
    ensures AfterHalvings(x, n)
  {
    WidthHalves(n);
    ScaledWithin(x, Width(n), Pow2(n));
  }

  lemma ScaledWithin(x: real, y: real, c: real)
    requires 0.0 <= x <= y && c >= 0.0
    ensures 0.0 <= x * c <= y * c
  {
  }

  datatype Verdict = Never | At(u: real) | Raises

  predicate Dearer(c: Cost, price: real) {
    c.Infinite? || (c.Usd? && c.amount > price)
  }

  /** The source's loop; only the first evaluation can raise, since every later one has the same lifetime. */
  method BreakevenUtilisation(a: Assumptions) returns (r: Verdict)
    ensures r.Raises? <==> a.tokensPerSecond > 0.0 && a.life == 0.0
    ensures r.Never? <==> !r.Raises? && !BreaksEven(a, 1.0)
    ensures r.At? ==> Running(a) && FLOOR < r.u <= 1.0 && BreaksEven(a, r.u) && BreaksEven(a, 1.0)
    ensures r.At? ==> AfterHalvings(r.u - Exact(a), 200)
    ensures a.tokensPerSecond <= 0.0 || (a.life != 0.0 && Standing(a) >= 0.0) ==> (r.Never? <==> Hopeless(a))
  {
    var lo, hi := FLOOR, 1.0;
    var top := FullyLoadedCost(a, hi);
    if top.ZeroDivision? { return Raises; }
    if Dearer(top, a.commodity) {
      FullUtilisationDecides(a);
      return Never;
    }
    for i := 0 to STEPS
      invariant FLOOR <= lo < hi <= 1.0 && hi - lo == Width(i)
      invariant Running(a) && BreaksEven(a, hi) && BreaksEven(a, 1.0)
      invariant Below(a, lo)
    {
      var mid := (lo + hi) / 2.0;
      CostIsSpread(a, mid);
      if Dearer(FullyLoadedCost(a, mid), a.commodity) {
        LosesBelow(a, mid);
        lo := mid;
      } else {
        hi := mid;
      }
    }
    ExactIsLeast(a);
    WithinWidth(hi - Exact(a), STEPS);
    r := At(hi);
  }

  ghost predicate Hopeless(a: Assumptions) {
    forall u :: 0.0 < u <= 1.0 ==> !BreaksEven(a, u)
  }

  lemma {:induction false} FullUtilisationDecides(a: Assumptions)
    requires a.tokensPerSecond <= 0.0 || a.life != 0.0
    ensures a.tokensPerSecond <= 0.0 || Standing(a) >= 0.0 ==> (!BreaksEven(a, 1.0) <==> Hopeless(a))
  {
    if !BreaksEven(a, 1.0) && (a.tokensPerSecond <= 0.0 || Standing(a) >= 0.0) {
      forall u | 0.0 < u <= 1.0 ensures !BreaksEven(a, u) {
        if a.tokensPerSecond <= 0.0 {
          IdleNodeIsInfinite(a, u);
        } else if u < 1.0 {
          CostOrder(a, u, 1.0);
          CostIsSpread(a, 1.0);
        }
      }
    }
  }

  /** Judging by full utilisation alone is right exactly when the standing charge is not negative, or a
      fully utilised year earns it back anyway. */
  lemma {:induction false} FullUtilisationDecidesIff(a: Assumptions)
    requires Running(a)
    ensures (!BreaksEven(a, 1.0) <==> Hopeless(a)) <==> Standing(a) >= 0.0 || Standing(a) <= Earned(a)
  {
    FullUtilisationDecides(a);
    BreakEvenIff(a, 1.0);
    if !BreaksEven(a, 1.0) && Standing(a) < 0.0 {
      var u := PayingPoint(a);
      assert BreaksEven(a, u);
    }
  }

  /** Paid to stand idle, dear to run: full utilisation loses, so the search answers "never", yet a
      ten-thousandth pays. */
  lemma {:induction false} NeverIsWrong()
    ensures var a := Assumptions(-1.0, 1.0, 1000.0, 0.0, 0.0, 1.0, 1.0, 0.0);
      Running(a) && !BreaksEven(a, 1.0) && BreaksEven(a, 0.0001) && !Hopeless(a)
  {
    var a := Assumptions(-1.0, 1.0, 1000.0, 0.0, 0.0, 1.0, 1.0, 0.0);
    BreakEvenIff(a, 1.0);
    BreakEvenIff(a, 0.0001);
    assert Standing(a) == -1.0 && Earned(a) == -8760.0;
  }

  lemma {:induction false} PayingPoint(a: Assumptions) returns (u: real)
    requires Running(a) && Standing(a) < 0.0 && !BreaksEven(a, 1.0)
    ensures 0.0 < u <= 1.0 && BreaksEven(a, u)
  {
    BreakEvenIff(a, 1.0);
    var s, e := Standing(a), Earned(a);
    u := s / e;
    assert u * e == s;
    RatioBelowOne(s, e, u);
    BreakEvenIff(a, u);
  }

  lemma RatioBelowOne(s: real, e: real, u: real)
    requires e < s < 0.0 && u * e == s
    ensures 0.0 < u < 1.0
  {
    assert u >= 1.0 ==> (u - 1.0) * -e >= 0.0;
  }

  /** The least break-even point of the search interval, in closed form. */
  function Exact(a: Assumptions): real
    requires Running(a)
  {
    if Earned(a) > 0.0 && Standing(a) / Earned(a) > FLOOR then Standing(a) / Earned(a) else FLOOR
  }

  lemma {:induction false} ExactIsLeast(a: Assumptions)
    requires Running(a) && BreaksEven(a, 1.0)
    ensures FLOOR <= Exact(a) <= 1.0 && BreaksEven(a, Exact(a)) && Below(a, Exact(a))
  {
    BreakEvenIff(a, 1.0);
    BreakEvenIff(a, Exact(a));
    if Earned(a) > 0.0 {
      RootIsLeast(a);
    }
  }

  lemma {:induction false} RootIsLeast(a: Assumptions)
    requires Running(a) && Earned(a) > 0.0 && BreaksEven(a, 1.0)
    ensures FLOOR <= Exact(a) <= 1.0 && Standing(a) <= Earned(a) * Exact(a) && Below(a, Exact(a))
  {
    var root := Standing(a) / Earned(a);
    BreakEvenIff(a, 1.0);
    forall u | FLOOR <= u && BreaksEven(a, u) ensures Exact(a) <= u {
      BreakEvenIff(a, u);
    }
  }
}
