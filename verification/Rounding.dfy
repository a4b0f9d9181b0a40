/** Rounding up to a multiple, as the mask expressions of the source do for powers of two. */
module Rounding {

  function RoundUp(x: nat, unit: nat): (r: nat)
    requires unit > 0
    ensures x <= r < x + unit && r % unit == 0
    ensures forall y: nat :: x <= y && y % unit == 0 ==> r <= y
  {
    var q := (x + unit - 1) / unit;
    Rounded(x, unit);
    q * unit
  }

  lemma Rounded(x: nat, unit: nat)
    requires unit > 0
    ensures var r := (x + unit - 1) / unit * unit; x <= r < x + unit && r % unit == 0
    ensures forall y: nat :: x <= y && y % unit == 0 ==> (x + unit - 1) / unit * unit <= y
  {
    var n := x + unit - 1;
    var q := n / unit;
    assert n == q * unit + n % unit;
    Multiple(q, unit);
    forall y: nat | x <= y && y % unit == 0
      ensures q * unit <= y
    {
      var p := y / unit;
      assert y == p * unit;
      if p < q { Smaller(p, q, unit); }
    }
  }

  lemma Smaller(p: nat, q: nat, unit: nat)
    requires p < q
    ensures p * unit + unit <= q * unit
  {
    assert (p + 1) * unit <= q * unit;
  }

  lemma {:induction false} Quotient(q: nat, unit: nat)
    requires unit > 0
    ensures q * unit / unit == q
    decreases q
  {
    if q > 0 {
      Quotient(q - 1, unit);
      assert q * unit == (q - 1) * unit + unit;
      assert ((q - 1) * unit + unit) / unit == (q - 1) * unit / unit + 1;
    }
  }

  lemma Multiple(q: nat, unit: nat)
    requires unit > 0
    ensures q * unit % unit == 0
  {
    Quotient(q, unit);
    var n := q * unit;
    assert n == n / unit * unit + n % unit;
  }

  function RoundDown(x: nat, unit: nat): (r: nat)
    requires unit > 0
    ensures r <= x < r + unit && r % unit == 0
    ensures forall y: nat :: y <= x && y % unit == 0 ==> y <= r
  {
    RoundedDown(x, unit);
    x / unit * unit
  }

  lemma RoundedDown(x: nat, unit: nat)
    requires unit > 0
    ensures x / unit * unit <= x < x / unit * unit + unit && x / unit * unit % unit == 0
    ensures forall y: nat :: y <= x && y % unit == 0 ==> y <= x / unit * unit
  {
    var q := x / unit;
    assert x == q * unit + x % unit;
    Multiple(q, unit);
    forall y: nat | y <= x && y % unit == 0
      ensures y <= q * unit
    {
      var p := y / unit;
      assert y == p * unit;
      if q < p { Smaller(q, p, unit); }
    }
  }

  lemma SumOfMultiples(a: nat, b: nat, unit: nat)
    requires unit > 0 && a % unit == 0 && b % unit == 0
    ensures (a + b) % unit == 0
  {
    var p, q := a / unit, b / unit;
    assert a == p * unit && b == q * unit;
    assert a + b == (p + q) * unit;
    Multiple(p + q, unit);
  }

  // Rounding up behind a multiple.
  lemma RoundUpBehind(a: nat, x: nat, unit: nat)
    requires unit > 0 && a % unit == 0
    ensures RoundUp(a + x, unit) == a + RoundUp(x, unit)
  {
    hide RoundUp;
    var r := RoundUp(a + x, unit);
    SumOfMultiples(a, RoundUp(x, unit), unit);
    assert r <= a + RoundUp(x, unit);
    assert a <= r;
    DifferenceOfMultiples(r, a, unit);
    assert RoundUp(x, unit) <= r - a;
  }

  lemma DifferenceOfMultiples(a: nat, b: nat, unit: nat)
    requires unit > 0 && a % unit == 0 && b % unit == 0 && b <= a
    ensures (a - b) % unit == 0
  {
    var p, q := a / unit, b / unit;
    assert a == p * unit && b == q * unit;
    if p < q { Smaller(p, q, unit); }
    assert a - b == (p - q) * unit;
    Multiple(p - q, unit);
  }

  lemma RoundUpScaled(x: nat, unit: nat, k: nat)
    requires unit > 0 && k > 0
    ensures unit * k > 0 && RoundUp(k * x, unit * k) == k * RoundUp(x, unit)
  {
    hide RoundUp;
    var r := RoundUp(x, unit);
    assert r == r / unit * unit;
    assert k * r == r / unit * (unit * k);
    assert unit * k > 0;
    Multiple(r / unit, unit * k);
    var s := RoundUp(k * x, unit * k);
    assert s <= k * r;
    var q := s / (unit * k);
    assert s == q * (unit * k) == k * (q * unit);
    Multiple(q, unit);
    if q * unit < x { Smaller(q * unit, x, k); }
    assert r <= q * unit;
    assert k * r <= k * (q * unit);
  }
}
