/** Sums of reals and the percentage-share identities the components rely on. */
module Arith {

  function Sum(xs: seq<real>): real {
    if xs == [] then 0.0 else xs[0] + Sum(xs[1..])
  }

  /**
   * `whole > 0 ? (part / whole) * 100 : 0`, the guarded percentage both the
   * table's allocation column and the chart's legend compute.
   */
  function PercentOf(part: real, whole: real): (r: real)
    ensures whole > 0.0 ==> r * whole == 100.0 * part
    ensures whole <= 0.0 ==> r == 0.0
  {
    if whole > 0.0 then (part / whole) * 100.0 else 0.0
  }

  /** A positive factor cancels. */
  lemma Cancel(x: real, y: real, t: real)
    requires t > 0.0 && x * t == y * t
    ensures x == y
  {
    assert (x - y) * t == 0.0;
  }

  /** Shares of two parts of a whole add up to the share of their sum. */
  lemma ShareSum(a: real, b: real, x: real, y: real, t: real)
    requires a * t == 100.0 * x && b * t == 100.0 * y
    ensures (a + b) * t == 100.0 * (x + y)
  {
    assert (a + b) * t == a * t + b * t;
  }

  /** If each xs[i] is the percentage share of ys[i] in t, the sums keep that relation. */
  lemma {:induction false} SharesSum(xs: seq<real>, ys: seq<real>, t: real)
    requires |xs| == |ys|
    requires forall i :: 0 <= i < |xs| ==> xs[i] * t == 100.0 * ys[i]
    ensures Sum(xs) * t == 100.0 * Sum(ys)
  {
    if xs != [] {
      SharesSum(xs[1..], ys[1..], t);
      ShareSum(xs[0], Sum(xs[1..]), ys[0], Sum(ys[1..]), t);
    }
  }

  /** Each part as a percentage of the whole. */
  function Percentages(parts: seq<real>, whole: real): (r: seq<real>)
    ensures |r| == |parts| && forall i :: 0 <= i < |parts| ==> r[i] == PercentOf(parts[i], whole)
  {
    seq(|parts|, i requires 0 <= i < |parts| => PercentOf(parts[i], whole))
  }

  /** The percentages of parts that make up a positive whole add up to 100. */
  lemma PercentagesSumTo100(parts: seq<real>, whole: real)
    requires whole == Sum(parts) && whole > 0.0
    ensures Sum(Percentages(parts, whole)) == 100.0
  {
    var xs := Percentages(parts, whole);
    SharesSum(xs, parts, whole);
    Cancel(Sum(xs), 100.0, whole);
  }
}
