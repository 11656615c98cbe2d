/** The standard model of floating-point arithmetic: every operation returns the exact result with a relative error
    of at most u (IEEE 754-2019, section 4.3), and a fused multiply-add rounds once (section 5.4.1).
    There is no overflow and no underflow. With u == 0.0 the arithmetic is exact. */
module Rounding {

  function Abs(x: real): (r: real)
    ensures r >= 0.0 && (r == x || r == -x)
  {
    if x < 0.0 then -x else x
  }

  function Pow(g: real, k: nat): real {
    if k == 0 then 1.0 else g * Pow(g, k - 1)
  }

  /** r is what rounding makes of the exact result v of one operation. */
  ghost predicate Rounded(r: real, v: real, u: real) { Abs(r - v) <= u * Abs(v) }

  lemma LargerProduct(d: real, u: real, x: real)
    requires x > 0.0 && d * x <= u * x
    ensures d <= u
  {
    assert d > u ==> (d - u) * x > 0.0;
  }

  /** r is v with a relative error d of at most u. */
  ghost predicate IsRelative(r: real, v: real, u: real, d: real) { -u <= d <= u && r == v * (1.0 + d) }

  /** The standard model in its usual form: the exact result times 1 + d, where d is at most u in absolute value. */
  lemma RoundedIffRelative(r: real, v: real, u: real)
    requires 0.0 <= u
    ensures Rounded(r, v, u) <==> exists d :: IsRelative(r, v, u, d)
  {
    if Rounded(r, v, u) {
      var d := RelativeError(r, v, u);
    }
    if d :| IsRelative(r, v, u, d) { RelativeIsRounded(r, v, u, d); }
  }

  lemma RelativeError(r: real, v: real, u: real) returns (d: real)
    requires 0.0 <= u && Rounded(r, v, u)
    ensures IsRelative(r, v, u, d)
  {
    if v == 0.0 {
      d := 0.0;
    } else {
      d := (r - v) / v;
      assert d * v == r - v;
      ProductOfAbs(d, v);
      LargerProduct(Abs(d), u, Abs(v));
      assert v * (1.0 + d) == v + d * v;
    }
  }

  lemma ProductOfAbs(x: real, y: real)
    ensures Abs(x * y) == Abs(x) * Abs(y)
  {
  }

  lemma RelativeIsRounded(r: real, v: real, u: real, d: real)
    requires 0.0 <= u && IsRelative(r, v, u, d)
    ensures Rounded(r, v, u)
  {
    assert r - v == v * d;
    ProductOfAbs(v, d);
    TimesNonNegative(u - Abs(d), Abs(v));
  }

  /** The error that k roundings one after the other can build up in a sum whose terms have absolute values
      that add up to a: each rounding adds u times the largest value the sum can have by then. */
  function Drift(a: real, u: real, k: nat): real {
    if k == 0 then 0.0 else Drift(a, u, k - 1) + u * (a + Drift(a, u, k - 1))
  }

  /** v was computed for the exact value e; a is the sum of the absolute values of the terms of e,
      and no term went through more than k roundings. */
  ghost predicate Near(v: real, e: real, a: real, u: real, k: nat) {
    Abs(e) <= a && Abs(v - e) <= Drift(a, u, k)
  }

  /** The usual form of the bound: ((1 + u)^k - 1) times the sum of the absolute values. */
  lemma {:induction false} DriftIsPower(a: real, u: real, k: nat)
    ensures Drift(a, u, k) == (Pow(1.0 + u, k) - 1.0) * a
  {
    if k > 0 {
      DriftIsPower(a, u, k - 1);
      var p := Pow(1.0 + u, k - 1);
      assert a + (p - 1.0) * a == p * a;
      assert u * (p * a) == (u * p) * a;
      assert (p - 1.0) * a + (u * p) * a == (p - 1.0 + u * p) * a;
    }
  }

  lemma NearMeans(v: real, e: real, a: real, u: real, k: nat)
    requires Near(v, e, a, u, k)
    ensures Abs(v - e) <= (Pow(1.0 + u, k) - 1.0) * a
  {
    DriftIsPower(a, u, k);
  }

  lemma Distribute(u: real, x: real, y: real)
    ensures u * (x + y) == u * x + u * y
  {
  }

  lemma {:induction false} DriftAdds(a: real, b: real, u: real, k: nat)
    ensures Drift(a + b, u, k) == Drift(a, u, k) + Drift(b, u, k)
  {
    if k > 0 {
      DriftAdds(a, b, u, k - 1);
      Distribute(u, a + Drift(a, u, k - 1), b + Drift(b, u, k - 1));
    }
  }

  lemma TimesNonNegative(u: real, x: real)
    requires u >= 0.0 && x >= 0.0
    ensures u * x >= 0.0
  {
  }

  lemma {:induction false} DriftNonNegative(a: real, u: real, k: nat)
    requires u >= 0.0 && a >= 0.0
    ensures Drift(a, u, k) >= 0.0
  {
    if k > 0 {
      DriftNonNegative(a, u, k - 1);
      TimesNonNegative(u, a + Drift(a, u, k - 1));
    }
  }

  lemma {:induction false} DriftGrows(a: real, u: real, k: nat, m: nat)
    requires u >= 0.0 && a >= 0.0 && k <= m
    ensures Drift(a, u, k) <= Drift(a, u, m)
    decreases m
  {
    if k < m {
      DriftGrows(a, u, k, m - 1);
      DriftNonNegative(a, u, m - 1);
      TimesNonNegative(u, a + Drift(a, u, m - 1));
    }
  }

  lemma NearWeaken(v: real, e: real, a: real, u: real, k: nat, m: nat)
    requires Near(v, e, a, u, k) && k <= m && u >= 0.0
    ensures Near(v, e, a, u, m)
  {
    DriftGrows(a, u, k, m);
  }

  /** r is v rounded, v is within t of e, and e is within a: how far r is from e. */
  lemma RoundingBound(r: real, v: real, e: real, a: real, t: real, u: real)
    requires 0.0 <= u && Abs(e) <= a && Abs(v - e) <= t && Abs(r - v) <= u * Abs(v)
    ensures Abs(r - e) <= t + u * (a + t)
  {
    var d, w := u * Abs(v), u * (a + t);
    assert d <= w by { assert Abs(v) <= a + t; }
    assert Abs(r - v) <= d;
  }

  /** One more rounding, from v to r, of a value that is near. */
  lemma NearRounded(r: real, v: real, e: real, a: real, u: real, k: nat)
    requires 0.0 <= u && Near(v, e, a, u, k) && Rounded(r, v, u)
    ensures Near(r, e, a, u, k + 1)
  {
    var t := Drift(a, u, k);
    RoundingBound(r, v, e, a, t, u);
    assert Drift(a, u, k + 1) == t + u * (a + t);
  }

  lemma NearPlus(v: real, e: real, a: real, w: real, f: real, b: real, u: real, k: nat)
    requires Near(v, e, a, u, k) && Near(w, f, b, u, k)
    ensures Near(v + w, e + f, a + b, u, k)
  {
    DriftAdds(a, b, u, k);
  }

  lemma NearItself(e: real, u: real, k: nat)
    requires u >= 0.0
    ensures Near(e, e, Abs(e), u, k)
  {
    DriftNonNegative(Abs(e), u, k);
  }
}
