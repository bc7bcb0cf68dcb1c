/**
 * Exponential backoff with a cap and jitter, as the transfer retry loop and the outbox worker both
 * compute it: floor(min(base * 2^(attempt - 1), cap) * (0.5 + jitter * 0.5)), jitter in [0, 1).
 *
 * The program computes this in double precision.  Every intermediate result is therefore rounded
 * here by a function of which only this is assumed: it is monotone, and it leaves whole and half
 * numbers of ordinary size alone.  `DoubleRound` is that of IEEE doubles where it matters, between
 * 1/2 and 1.
 */
module Backoff {

  /** Whole and half numbers up to this many halves are doubles. */
  const EXACT_HALVES: nat := 0x20_0000_0000_0000

  function Half(n: int): real {
    n as real / 2.0
  }

  ghost predicate Rounds(round: real -> real) {
    && (forall x, y :: x <= y ==> round(x) <= round(y))
    && (forall n :: 0 <= n <= EXACT_HALVES ==> round(Half(n)) == Half(n))
  }

  /** One jitter value, and the rounding of the arithmetic done with it. */
  datatype Draw = Draw(jitter: real, round: real -> real)

  ghost predicate Drawn(d: Draw) {
    0.0 <= d.jitter < 1.0 && Rounds(d.round)
  }

  function Pow2(n: nat): nat {
    if n == 0 then 1 else 2 * Pow2(n - 1)
  }

  /** The delay before jitter. */
  function Unjittered(base: nat, cap: nat, attempt: nat): nat
    requires attempt >= 1
  {
    if base * Pow2(attempt - 1) < cap then base * Pow2(attempt - 1) else cap
  }

  /** 0.5 + jitter * 0.5 */
  function Factor(d: Draw): real {
    d.round(0.5 + d.round(d.jitter * 0.5))
  }

  function Scaled(x: real, k: real): real {
    x * k
  }

  function Delay(base: nat, cap: nat, attempt: nat, d: Draw): int
    requires attempt >= 1
  {
    d.round(Scaled(Unjittered(base, cap, attempt) as real, Factor(d))).Floor
  }

  // ---------------------------------------------------------------- bounds

  /** The factor lies between a half and one; rounding may bring it to one although the jitter is below one. */
  lemma FactorBounds(d: Draw)
    requires Drawn(d)
    ensures 0.5 <= Factor(d) <= 1.0
  {
    var half := d.round(d.jitter * 0.5);
    assert d.round(Half(0)) == 0.0 && d.round(Half(1)) == 0.5 && d.round(Half(2)) == 1.0;
    assert d.round(Half(0)) <= half <= d.round(Half(1));
    assert d.round(Half(1)) <= d.round(0.5 + half) <= d.round(Half(2));
  }

  /** Every delay lies between half its unjittered value, rounded down, and the whole. */
  lemma DelayBounds(base: nat, cap: nat, attempt: nat, d: Draw)
    requires base > 0 && 0 < cap <= EXACT_HALVES / 2 && attempt >= 1 && Drawn(d)
    ensures Unjittered(base, cap, attempt) / 2 <= Delay(base, cap, attempt, d) <= Unjittered(base, cap, attempt) <= cap
  {
    hide Unjittered, Factor;
    UnjitteredBounds(base, cap, attempt);
    FactorBounds(d);
    ScaleBounds(Unjittered(base, cap, attempt), Factor(d), d.round);
  }

  /** A factor of one gives the whole delay. */
  lemma FullDelay(base: nat, cap: nat, attempt: nat, d: Draw)
    requires base > 0 && 0 < cap <= EXACT_HALVES / 2 && attempt >= 1 && Drawn(d) && Factor(d) == 1.0
    ensures Delay(base, cap, attempt, d) == Unjittered(base, cap, attempt)
  {
    hide Unjittered, Factor;
    UnjitteredBounds(base, cap, attempt);
    var u := Unjittered(base, cap, attempt);
    assert Scaled(u as real, 1.0) == Half(2 * u);
    assert d.round(Half(2 * u)) == Half(2 * u) == u as real;
  }

  lemma UnjitteredBounds(base: nat, cap: nat, attempt: nat)
    requires base > 0 && cap > 0 && attempt >= 1
    ensures 0 < Unjittered(base, cap, attempt) <= cap
  {
    PowPositive(base, attempt - 1);
  }

  lemma ScaleBounds(n: int, k: real, round: real -> real)
    requires 0 < n <= EXACT_HALVES / 2 && 0.5 <= k <= 1.0 && Rounds(round)
    ensures n / 2 <= round(Scaled(n as real, k)).Floor <= n
  {
    ProductBounds(n as real, k);
    var scaled := Scaled(n as real, k);
    hide Scaled;
    assert Half(n) <= scaled <= Half(2 * n);
    assert round(Half(n)) <= round(scaled) <= round(Half(2 * n));
    assert round(Half(n)) == Half(n) && round(Half(2 * n)) == Half(2 * n);
    assert (n / 2) as real <= Half(n);
  }

  lemma ProductBounds(r: real, k: real)
    requires r > 0.0 && 0.5 <= k <= 1.0
    ensures r * 0.5 <= Scaled(r, k) <= r
  {
    assert r * (k - 0.5) >= 0.0 && r * (1.0 - k) >= 0.0;
  }

  lemma {:induction false} PowPositive(base: nat, n: nat)
    requires base > 0
    ensures base * Pow2(n) > 0
  {
    if n > 0 {
      PowPositive(base, n - 1);
    }
  }

  lemma {:induction false} PowGrows(n: nat, m: nat)
    requires n <= m
    ensures Pow2(n) <= Pow2(m)
  {
    if n < m {
      PowGrows(n, m - 1);
    }
  }

  lemma Times(base: nat, x: nat, y: nat)
    requires x <= y
    ensures base * x <= base * y
  {
  }

  /** Waiting never gets shorter with more attempts, jitter aside, and stays at the cap once there. */
  lemma BackoffGrows(base: nat, cap: nat, n: nat, m: nat)
    requires 1 <= n <= m
    ensures Unjittered(base, cap, n) <= Unjittered(base, cap, m)
  {
    PowGrows(n - 1, m - 1);
    Times(base, Pow2(n - 1), Pow2(m - 1));
  }

  // ---------------------------------------------------------------- doubles between a half and one

  /** 2^53: doubles between 1/2 and 1 are the multiples of its inverse. */
  const UNITS: int := 0x20_0000_0000_0000

  /** The nearer of the two neighbouring multiples of 1 / UNITS, the even one if both are as near. */
  function NearestUnit(x: real): int {
    var low := (x * UNITS as real).Floor;
    var above := x * UNITS as real - low as real;
    if above < 0.5 || (above == 0.5 && low % 2 == 0) then low else low + 1
  }

  /** Rounding to a double in [1/2, 1]; other values are left alone. */
  function DoubleRound(x: real): real {
    if 0.5 <= x <= 1.0 then NearestUnit(x) as real / UNITS as real else x
  }

  lemma NearestUnitMonotone(x: real, y: real)
    requires x <= y
    ensures NearestUnit(x) <= NearestUnit(y)
  {
  }

  lemma NearestUnitEnds()
    ensures NearestUnit(0.5) as real / UNITS as real == 0.5 && NearestUnit(1.0) as real / UNITS as real == 1.0
  {
  }

  lemma DoubleRoundRounds()
    ensures Rounds(DoubleRound)
  {
    NearestUnitEnds();
    forall x, y | x <= y
      ensures DoubleRound(x) <= DoubleRound(y)
    {
      if 0.5 <= x <= 1.0 {
        NearestUnitMonotone(x, 1.0);
        if y <= 1.0 { NearestUnitMonotone(x, y); }
      } else if 0.5 <= y <= 1.0 {
        NearestUnitMonotone(0.5, y);
      }
    }
    forall n | 0 <= n <= EXACT_HALVES
      ensures DoubleRound(Half(n)) == Half(n)
    {
      assert n == 0 || n == 1 || n == 2 || Half(n) > 1.0;
    }
  }

  /** In doubles the factor is one exactly for the largest double below one (and whatever lies beyond it). */
  lemma FactorIsOneIff(d: Draw)
    requires 0.0 <= d.jitter < 1.0 && d.round == DoubleRound
    ensures Factor(d) == 1.0 <==> d.jitter >= 1.0 - 1.0 / UNITS as real
  {
    var sum := 0.5 + d.jitter * 0.5;
    assert Factor(d) == NearestUnit(sum) as real / UNITS as real;
    assert NearestUnit(sum) == UNITS <==> sum * UNITS as real >= UNITS as real - 0.5;
  }

  /** That double is a jitter value. */
  const TOP_DRAW: Draw := Draw(1.0 - 1.0 / UNITS as real, DoubleRound)

  lemma TopDrawIsOne()
    ensures Drawn(TOP_DRAW) && Factor(TOP_DRAW) == 1.0
  {
    DoubleRoundRounds();
    FactorIsOneIff(TOP_DRAW);
  }
}
