/** Facts about quotients, remainders and rounding that the solver does not find by itself. */
module Arithmetic {

  lemma MulSign(a: int, unit: int)
    requires unit >= 1
    ensures a >= 1 ==> a * unit >= unit
    ensures a <= -1 ==> a * unit <= -unit
  {
  }

  lemma QuotientIs(a: int, unit: int, q: int, r: int)
    requires unit >= 1 && a == q * unit + r && 0 <= r < unit
    ensures a / unit == q && a % unit == r
  {
    var d := a / unit - q;
    assert d * unit == r - a % unit;
    MulSign(d, unit);
  }

  lemma MultipleIs(q: int, unit: int)
    requires unit >= 1
    ensures (q * unit) % unit == 0 && (q * unit) / unit == q
  {
    QuotientIs(q * unit, unit, q, 0);
  }

  lemma RoundedDown(n: int, unit: int)
    requires unit >= 1
    ensures (n - n % unit) % unit == 0 && n - n % unit == n / unit * unit
    ensures 0 <= n - n % unit < unit ==> n - n % unit == 0
  {
    MultipleIs(n / unit, unit);
    MulSign(n / unit, unit);
  }

  lemma AlignedSum(a: int, b: int, unit: int)
    requires unit >= 1 && a % unit == 0 && b % unit == 0
    ensures (a + b) % unit == 0 && (a - b) % unit == 0
    ensures (a + b) / unit == a / unit + b / unit && (a - b) / unit == a / unit - b / unit
  {
    var p, q := a / unit, b / unit;
    assert a == p * unit && b == q * unit;
    assert a + b == (p + q) * unit && a - b == (p - q) * unit;
    MultipleIs(p + q, unit);
    MultipleIs(p - q, unit);
  }

  lemma WholeUnits(count: int, part: int, unit: int)
    requires unit >= 1 && part % unit == 0
    ensures (count + part / unit) * unit == count * unit + part
  {
  }

  /** The largest multiple of `unit` that is at most `n`. */
  function RoundDown(n: nat, unit: nat): (r: nat)
    requires unit >= 1
    ensures r <= n < r + unit && r % unit == 0
    ensures r == 0 <==> n < unit
  {
    RoundedDown(n, unit);
    n - n % unit
  }

  lemma SameRemainder(a: int, count: int, unit: int)
    requires unit >= 1
    ensures (a + count * unit) % unit == a % unit
  {
    QuotientIs(a + count * unit, unit, a / unit + count, a % unit);
  }

  lemma RemainderOfSum(a: int, b: int, unit: int)
    requires unit >= 1
    ensures (a % unit + b) % unit == (a + b) % unit
  {
    assert a == a / unit * unit + a % unit;
    SameRemainder(a % unit + b, a / unit, unit);
  }

  lemma RemainderOfDifference(total: int, missed: int, unit: int)
    requires unit >= 1
    ensures (total - (total - missed) % unit) % unit == missed % unit
    ensures (total + unit - (total - missed) % unit) % unit == missed % unit
  {
    var q := (total - missed) / unit;
    assert total - missed == q * unit + (total - missed) % unit;
    SameRemainder(missed, q, unit);
    SameRemainder(missed, q + 1, unit);
    assert (q + 1) * unit == q * unit + unit;
  }

  lemma NotMoreUnits(a: int, b: int, unit: int)
    requires unit >= 1 && a * unit < b * unit + unit
    ensures a <= b
  {
    assert a * unit - b * unit == (a - b) * unit;
    MulSign(a - b, unit);
  }

  lemma MoreUnits(a: int, b: int, unit: int)
    requires a <= b && unit >= 0
    ensures a * unit <= b * unit
  {
  }

  function Smaller(a: nat, b: nat): nat { if a < b then a else b }

  function Larger(a: nat, b: nat): nat { if a < b then b else a }

  /** What is left of `a` after `b`. */
  function Beyond(a: nat, b: nat): nat {
    if a <= b then 0 else a - b
  }

  function CeilDiv(a: nat, b: nat): nat
    requires b >= 1
  {
    (a + b - 1) / b
  }
}
