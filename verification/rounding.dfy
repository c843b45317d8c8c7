/**
 * Decimal rounding as JavaScript's `Number(x.toFixed(digits))` performs it,
 * on exact reals: section 21.1.3.3 of ECMA-262 (Number.prototype.toFixed)
 * picks the integer n making n / 10^digits closest to |x|, the larger one on
 * a tie, and re-applies the sign; magnitudes of 10^21 and above are printed
 * by ToString instead, so they come back unrounded.
 */
module Rounding {

  function Pow10(k: nat): (r: nat)
    ensures r >= 1
  {
    if k == 0 then 1 else 10 * Pow10(k - 1)
  }

  function Abs(x: real): real {
    if x < 0.0 then -x else x
  }

  /** Units of the `digits`-th decimal place in one. */
  function Scale(digits: nat): (s: real)
    ensures s >= 1.0
  {
    Pow10(digits) as real
  }

  /** `x` measured in units of the `digits`-th decimal place. */
  function Scaled(x: real, digits: nat): real {
    x * Scale(digits)
  }

  /** `m` units of the `digits`-th decimal place. */
  function Unscale(m: int, digits: nat): real {
    m as real / Scale(digits)
  }

  /** `x` is a whole number of units of the `digits`-th decimal place. */
  predicate OnGrid(x: real, digits: nat) {
    Scaled(x, digits).Floor as real == Scaled(x, digits)
  }

  lemma ScaledSign(x: real, digits: nat)
    ensures x >= 0.0 ==> Scaled(x, digits) >= 0.0
    ensures x <= 0.0 ==> Scaled(x, digits) <= 0.0
  {
  }

  lemma ScaledMonotone(x: real, y: real, digits: nat)
    requires x <= y
    ensures Scaled(x, digits) <= Scaled(y, digits)
  {
  }

  lemma UnscaleFacts(m: int, digits: nat)
    ensures Scaled(Unscale(m, digits), digits) == m as real
    ensures OnGrid(Unscale(m, digits), digits)
    ensures m >= 0 ==> Unscale(m, digits) >= 0.0
    ensures m <= 0 ==> Unscale(m, digits) <= 0.0
  {
    var s := Scale(digits);
    assert (m as real / s) * s == m as real;
  }

  lemma UnscaleScaled(x: real, digits: nat)
    requires OnGrid(x, digits)
    ensures Unscale(Scaled(x, digits).Floor, digits) == x
  {
    var s := Scale(digits);
    assert (x * s) / s == x;
  }

  lemma UnscaleMonotone(a: int, b: int, digits: nat)
    requires a <= b
    ensures Unscale(a, digits) <= Unscale(b, digits)
  {
    var s := Scale(digits);
    assert a as real / s <= b as real / s;
  }

  /** Sums of grid values stay on the grid. */
  lemma OnGridAdd(a: real, b: real, digits: nat)
    requires OnGrid(a, digits) && OnGrid(b, digits)
    ensures OnGrid(a + b, digits)
  {
    var s := Scale(digits);
    assert (a + b) * s == a * s + b * s;
    var ia, ib := Scaled(a, digits).Floor, Scaled(b, digits).Floor;
    assert Scaled(a + b, digits) == (ia + ib) as real;
  }

  lemma OnGridNegate(x: real, digits: nat)
    requires OnGrid(x, digits)
    ensures OnGrid(-x, digits)
  {
    var s := Scale(digits);
    assert (-x) * s == -(x * s);
    assert Scaled(-x, digits) == (-Scaled(x, digits).Floor) as real;
  }

  /** A value on a coarse grid is on every finer grid. */
  lemma {:induction false} OnGridFiner(x: real, digits: nat, finer: nat)
    requires digits <= finer
    requires OnGrid(x, digits)
    ensures OnGrid(x, finer)
    decreases finer - digits
  {
    if digits < finer {
      OnGridFiner(x, digits + 1, finer) by {
        var n := Scaled(x, digits).Floor;
        assert Scale(digits + 1) == 10.0 * Scale(digits);
        assert x * Scale(digits + 1) == 10.0 * (x * Scale(digits));
        assert Scaled(x, digits + 1) == (10 * n) as real;
      }
    }
  }

  /** From this magnitude on, toFixed falls back to ToString and does not round. */
  const ToFixedLimit: real := 1000000000000000000000.0

  /**
   * The signed count of last-place units toFixed prints for x: the integer
   * nearest to |x| scaled, ties going up, carrying the sign of x.
   */
  function ScaledRound(x: real, digits: nat): (m: int)
    ensures x >= 0.0 ==> m >= 0
    ensures x <= 0.0 ==> m <= 0
    ensures Abs(m as real - Scaled(x, digits)) <= 0.5
    // A tie moves away from zero: never down by a half for x >= 0, never up by a half for x < 0.
    ensures x >= 0.0 ==> m as real - Scaled(x, digits) > -0.5
    ensures x < 0.0 ==> m as real - Scaled(x, digits) < 0.5
  {
    ScaledSign(x, digits);
    var y := Scaled(x, digits);
    if x < 0.0 then -((-y + 0.5).Floor) else (y + 0.5).Floor
  }

  /** Number(x.toFixed(digits)). */
  function RoundTo(x: real, digits: nat): (r: real)
    ensures Abs(x) < ToFixedLimit ==> OnGrid(r, digits)
    ensures Abs(x) < ToFixedLimit ==> Abs(Scaled(r, digits) - Scaled(x, digits)) <= 0.5
    ensures Abs(x) >= ToFixedLimit ==> r == x
    ensures x >= 0.0 ==> r >= 0.0
    ensures x <= 0.0 ==> r <= 0.0
    // Halves go away from zero, as toFixed picks the larger n on a tie.
    ensures 0.0 <= x < ToFixedLimit ==> Scaled(r, digits) - Scaled(x, digits) > -0.5
    ensures -ToFixedLimit < x < 0.0 ==> Scaled(r, digits) - Scaled(x, digits) < 0.5
  {
    if Abs(x) >= ToFixedLimit then x
    else
      var m := ScaledRound(x, digits);
      UnscaleFacts(m, digits);
      Unscale(m, digits)
  }

  /** A value already on the grid is returned unchanged. */
  lemma RoundToOnGrid(x: real, digits: nat)
    requires OnGrid(x, digits)
    ensures RoundTo(x, digits) == x
  {
    if Abs(x) < ToFixedLimit {
      var y := Scaled(x, digits);
      ScaledSign(x, digits);
      assert ScaledRound(x, digits) == y.Floor;
      UnscaleScaled(x, digits);
    }
  }

  /** Rounding twice to the same number of places is rounding once. */
  lemma RoundToIdempotent(x: real, digits: nat)
    ensures RoundTo(RoundTo(x, digits), digits) == RoundTo(x, digits)
  {
    if Abs(x) < ToFixedLimit {
      RoundToOnGrid(RoundTo(x, digits), digits);
    }
  }

  /**
   * No multiple of 10^-digits is strictly closer to x than the rounded value
   * (distances measured in units of the last place).
   */
  lemma RoundToNearest(x: real, digits: nat, k: int)
    requires Abs(x) < ToFixedLimit
    ensures Abs(Scaled(RoundTo(x, digits), digits) - Scaled(x, digits))
         <= Abs(k as real - Scaled(x, digits))
  {
    var m := ScaledRound(x, digits);
    UnscaleFacts(m, digits);
    assert Scaled(RoundTo(x, digits), digits) == m as real;
    NearestInteger(Scaled(x, digits), m, k);
  }

  /** An integer within half a unit of y is at least as close to y as any other integer. */
  lemma NearestInteger(y: real, m: int, k: int)
    requires Abs(m as real - y) <= 0.5
    ensures Abs(m as real - y) <= Abs(k as real - y)
  {
    if k > m {
      assert k as real >= m as real + 1.0;
    } else if k < m {
      assert k as real <= m as real - 1.0;
    }
  }

  /** Rounding never moves a value below a non-negative grid point that lies under it. */
  lemma RoundToAtLeast(x: real, g: real, digits: nat)
    requires 0.0 <= g <= x
    requires OnGrid(g, digits)
    ensures g <= RoundTo(x, digits)
  {
    if Abs(x) < ToFixedLimit {
      var m := ScaledRound(x, digits);
      ScaledMonotone(g, x, digits);
      ScaledSign(g, digits);
      var n := Scaled(g, digits).Floor;
      assert m == (Scaled(x, digits) + 0.5).Floor;
      assert n <= m;
      UnscaleMonotone(n, m, digits);
      UnscaleScaled(g, digits);
    }
  }
}
