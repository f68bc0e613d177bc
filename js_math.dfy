/**
  JavaScript's `Math.round` on exact reals, and the `Math.round(x * scale) / scale`
  idiom the scorers use to keep one or two decimals.
*/
module JsMath {

  /** `Math.round(x)`: the nearest integer, a tie going toward +infinity. */
  function MathRound(x: real): (n: int)
    ensures x - 0.5 < n as real <= x + 0.5
  {
    (x + 0.5).Floor
  }

  /** `r * scale` is a whole number. */
  predicate OnGrid(r: real, scale: nat) {
    (r * scale as real).Floor as real == r * scale as real
  }

  /** `Math.round(x * scale) / scale`. */
  function RoundTo(x: real, scale: nat): (r: real)
    requires scale > 0
    ensures OnGrid(r, scale)
    ensures x * scale as real - 0.5 < r * scale as real <= x * scale as real + 0.5
  {
    var n := MathRound(x * scale as real);
    var r := n as real / scale as real;
    DivThenMul(n as real, scale as real);
    assert r * scale as real == n as real;
    assert (n as real).Floor == n;
    assert (r * scale as real).Floor == n;
    assert OnGrid(r, scale);
    r
  }

  lemma DivThenMul(a: real, b: real)
    requires b != 0.0
    ensures (a / b) * b == a
  {
  }

  /** Two whole numbers in one half-open window of width 1 are equal. */
  lemma WholeInWindow(a: real, b: real, y: real)
    requires a.Floor as real == a && b.Floor as real == b
    requires y - 0.5 < a <= y + 0.5 && y - 0.5 < b <= y + 0.5
    ensures a == b
  {
    assert a.Floor - b.Floor < 1 && b.Floor - a.Floor < 1;
  }

  /**
    The grid point and the window of RoundTo's contract pin its result down:
    it is the nearest multiple of 1/scale, ties going up.
  */
  lemma RoundToUnique(x: real, scale: nat, r: real)
    requires scale > 0
    requires OnGrid(r, scale)
    requires x * scale as real - 0.5 < r * scale as real <= x * scale as real + 0.5
    ensures r == RoundTo(x, scale)
  {
    var q := RoundTo(x, scale);
    WholeInWindow(r * scale as real, q * scale as real, x * scale as real);
  }

  /** Rounding an already rounded value changes nothing. */
  lemma RoundToIdempotent(x: real, scale: nat)
    requires scale > 0
    ensures RoundTo(RoundTo(x, scale), scale) == RoundTo(x, scale)
  {
    var r := RoundTo(x, scale);
    RoundToUnique(r, scale, r);
  }

  /** Grid points add up to a grid point: a sum of rounded values keeps their decimals. */
  lemma OnGridAdd(a: real, b: real, scale: nat)
    requires OnGrid(a, scale) && OnGrid(b, scale)
    ensures OnGrid(a + b, scale)
  {
    var x, y := (a * scale as real).Floor, (b * scale as real).Floor;
    assert (a + b) * scale as real == (x + y) as real;
  }

  /**
    Every exact tie rounds up, for negative values too and whatever the parity:
    `Math.round(k + 1/2) == k + 1`, and a value halfway between two grid points
    becomes the upper one.
  */
  lemma TiesGoUp(k: int, scale: nat)
    requires scale > 0
    ensures MathRound(k as real + 0.5) == k + 1
    ensures RoundTo((k as real + 0.5) / scale as real, scale) == (k + 1) as real / scale as real
  {
    var sc := scale as real;
    var x, r := (k as real + 0.5) / sc, (k + 1) as real / sc;
    DivThenMul(k as real + 0.5, sc);
    DivThenMul((k + 1) as real, sc);
    assert x * sc == k as real + 0.5;
    assert r * scale as real == (k + 1) as real;
    assert (r * scale as real).Floor == k + 1;
    assert OnGrid(r, scale);
    RoundToUnique(x, scale, r);
  }
}
