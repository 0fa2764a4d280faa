/** Division laws for rounding instants down to multiples of an interval. */
module Modular {

  lemma Scale(d: int, x: int)
    requires d > 0 && x >= 1
    ensures d * x >= d
  {
  }

  lemma NonNegative(d: int, x: int)
    requires d > 0 && x >= 0
    ensures d * x >= 0
  {
  }

  /** Quotient and remainder are unique. */
  lemma ModUnique(a: int, d: int, q: int, r: int)
    requires d > 0 && a == d * q + r && 0 <= r < d
    ensures a % d == r
  {
    var q' := a / d;
    assert d * (q - q') == d * q - d * q';
    assert d * (q' - q) == d * q' - d * q;
    if q > q' { Scale(d, q - q'); }
    if q < q' { Scale(d, q' - q); }
  }

  /** Rounding down gives a multiple, at most the argument and within one step of it. */
  lemma RoundDown(at: int, step: int)
    requires step > 0
    ensures (at - at % step) % step == 0
    ensures at - at % step <= at < at - at % step + step
  {
    assert at - at % step == step * (at / step);
    ModUnique(step * (at / step), step, at / step, 0);
  }

  /** Multiples are at least one step apart. */
  lemma MultiplesApart(a: int, b: int, step: int)
    requires step > 0 && a % step == 0 && b % step == 0 && a < b
    ensures a + step <= b
  {
    var p, q := a / step, b / step;
    assert a == step * p && b == step * q;
    assert step * (q - p) == step * q - step * p;
    if q > p {
      Scale(step, q - p);
    } else {
      assert step * (p - q) == step * p - step * q;
      NonNegative(step, p - q);
    }
  }

  lemma NextMultiple(a: int, step: int)
    requires step > 0 && a % step == 0
    ensures (a + step) % step == 0
  {
    var p := a / step;
    assert a + step == step * (p + 1) + 0;
    ModUnique(a + step, step, p + 1, 0);
  }

  lemma RoundDownMonotone(a: int, b: int, step: int)
    requires step > 0 && a <= b
    ensures a - a % step <= b - b % step
  {
    RoundDown(a, step);
    RoundDown(b, step);
    if b - b % step < a - a % step { MultiplesApart(b - b % step, a - a % step, step); }
  }

  lemma Regroup(small: int, factor: int, p: int, s: int, r: int)
    requires small > 0 && 0 <= s < factor && 0 <= r < small
    ensures small * factor > 0
    ensures small * (factor * p + s) == small * factor * p + small * s
    ensures 0 <= small * s && small * s + r < small * factor
  {
    Scale(small, factor);
    Scale(small, factor - s);
    assert small * (factor - s) == small * factor - small * s;
    assert small * (factor * p) == small * factor * p;
    assert small * (factor * p + s) == small * (factor * p) + small * s;
  }

  /** Rounding in two nested steps is rounding in the larger. */
  lemma RoundDownNests(at: int, small: int, factor: int)
    requires small > 0 && factor > 0
    ensures small * factor > 0
    ensures (at - at % small) - (at - at % small) % (small * factor) == at - at % (small * factor)
  {
    var q, r := at / small, at % small;
    var p, s := q / factor, q % factor;
    Regroup(small, factor, p, s, r);
    var big, rest, whole := small * factor, small * s, at - r;
    assert whole == big * p + rest;
    ModUnique(at, big, p, rest + r);
    ModUnique(whole, big, p, rest);
  }
}
