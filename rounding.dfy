/**
 * The rounding every calculator applies before it answers: `x.toFixed(d)` (read back with
 * `parseFloat` in one controller, kept as text in the other). Over the reals it yields the
 * multiple of 10^-d nearest to x, a tie going away from zero.
 */
module Rounding {

  /** 10^digits. */
  function Scale(digits: nat): (s: real)
    ensures s >= 1.0
  {
    if digits == 0 then 1.0 else 10.0 * Scale(digits - 1)
  }

  /** x is a whole multiple of 1/s. */
  predicate OnGrid(x: real, s: real)
  {
    (x * s).Floor as real == x * s
  }

  /** x has at most `digits` decimal places. */
  predicate HasDecimals(x: real, digits: nat)
  {
    OnGrid(x, Scale(digits))
  }

  /** k/s is on the grid of multiples of 1/s. */
  lemma GridPoint(k: int, s: real)
    requires s >= 1.0
    ensures OnGrid(k as real / s, s)
  {
    assert (k as real / s) * s == k as real;
    assert (k as real).Floor == k;
  }

  /** An integer within half a step of m * s, divided by s, is within half a step of m. */
  lemma WithinHalfStep(m: real, s: real, k: int)
    requires s >= 1.0 && -0.5 <= k as real - m * s <= 0.5
    ensures m - 0.5 / s <= k as real / s <= m + 0.5 / s
  {
    var d := k as real - m * s;
    assert k as real / s - m == d / s;
    assert (0.5 - d) / s >= 0.0 && (d + 0.5) / s >= 0.0;
    assert 0.5 / s - d / s == (0.5 - d) / s;
    assert d / s + 0.5 / s == (d + 0.5) / s;
  }

  /** Rounds the non-negative m to the nearest multiple of 1/s, a tie going up. */
  function RoundHalfUp(m: real, s: real): (r: real)
    requires m >= 0.0 && s >= 1.0
    ensures r >= 0.0 && OnGrid(r, s)
    ensures m - 0.5 / s <= r <= m + 0.5 / s
  {
    var k := (m * s + 0.5).Floor;
    WithinHalfStep(m, s, k);
    GridPoint(k, s);
    k as real / s
  }

  /** A non-negative value already on the grid is its own rounding. */
  lemma RoundHalfUpKeepsGrid(m: real, s: real)
    requires m >= 0.0 && s >= 1.0 && OnGrid(m, s)
    ensures RoundHalfUp(m, s) == m
  {
    var k := (m * s + 0.5).Floor;
    assert (m * s + 0.5).Floor == (m * s).Floor;
    assert k as real / s == m;
  }

  /** Rounds x to the nearest multiple of 1/s, a tie going away from zero. */
  function RoundTo(x: real, s: real): (r: real)
    requires s >= 1.0
    ensures OnGrid(r, s)
    ensures x - 0.5 / s <= r <= x + 0.5 / s
    ensures x >= 0.0 ==> r >= 0.0
    ensures x <= 0.0 ==> r <= 0.0
  {
    if x >= 0.0 then RoundHalfUp(x, s)
    else
      var k := RoundHalfUp(-x, s);
      GridNegate(k, s);
      -k
  }

  /** The grid is symmetric about zero. */
  lemma GridNegate(x: real, s: real)
    requires OnGrid(x, s)
    ensures OnGrid(-x, s)
  {
    var j := (x * s).Floor;
    assert -x * s == (-j) as real;
    assert ((-j) as real).Floor == -j;
  }

  /** Rounding a value already on the grid leaves it alone. */
  lemma RoundToKeepsGrid(x: real, s: real)
    requires s >= 1.0 && OnGrid(x, s)
    ensures RoundTo(x, s) == x
  {
    if x >= 0.0 {
      RoundHalfUpKeepsGrid(x, s);
    } else {
      GridNegate(x, s);
      RoundHalfUpKeepsGrid(-x, s);
    }
  }

  /** The number that `x.toFixed(digits)` prints. */
  function ToFixed(x: real, digits: nat): (r: real)
    ensures HasDecimals(r, digits)
    ensures x - 0.5 / Scale(digits) <= r <= x + 0.5 / Scale(digits)
    ensures x >= 0.0 ==> r >= 0.0
    ensures x <= 0.0 ==> r <= 0.0
  {
    RoundTo(x, Scale(digits))
  }

  /** Re-rounding an already rounded value yields the same value. */
  lemma ToFixedIdempotent(x: real, digits: nat)
    ensures ToFixed(ToFixed(x, digits), digits) == ToFixed(x, digits)
  {
    RoundToKeepsGrid(ToFixed(x, digits), Scale(digits));
  }

  /** A figure that already has at most `digits` decimals is left alone. */
  lemma ToFixedKeepsDecimals(x: real, digits: nat)
    requires HasDecimals(x, digits)
    ensures ToFixed(x, digits) == x
  {
    RoundToKeepsGrid(x, Scale(digits));
  }
}
