/** Facts about multiples that several modules need. */
module Arithmetic {
  lemma Multiple(k: int, unit: int)
    requires unit >= 1
    ensures (k * unit) % unit == 0 && (k >= 0 ==> 0 <= k * unit)
  {
    var q, r := (k * unit) / unit, (k * unit) % unit;
    assert k * unit == unit * q + r && 0 <= r < unit;
    assert unit * (k - q) == r;
    assert k - q >= 1 ==> unit * (k - q) >= unit;
    assert k - q <= -1 ==> unit * (k - q) <= -unit;
  }

  /** Rounding down to a multiple. */
  lemma RoundDown(w: int, unit: int)
    requires w >= 0 && unit >= 1
    ensures 0 <= w - w % unit <= w < (w - w % unit) + unit && (w - w % unit) % unit == 0
  {
    var q := w / unit;
    assert w == unit * q + w % unit;
    assert q <= -1 ==> unit * q <= -unit;
    Multiple(q, unit);
  }

  /** Multiples less than one unit apart are the same. */
  lemma SameMultiple(a: int, b: int, unit: int)
    requires unit >= 1 && 0 <= a * unit - b * unit < unit
    ensures a == b
  {
    assert unit * (a - b) == a * unit - b * unit;
    assert a - b >= 1 ==> unit * (a - b) >= unit;
    assert a - b <= -1 ==> unit * (a - b) <= -unit;
  }
}
