/** Summation trees: in which order, and with which operations, a kernel adds the products a[i] * b[i].
    Any tree that has each product once computes the dot product, up to an error that depends on its height. */
module Summation {
  import opened Rounding

  /** The floating-point operations of a processor; fma(s, x, y) is s + x * y rounded once. */
  datatype Fpu = Fpu(add: (real, real) -> real, mul: (real, real) -> real, fma: (real, real, real) -> real)

  /** On these operands each operation returns its exact result rounded once. */
  ghost predicate RoundsOnce(f: Fpu, u: real, s: real, x: real, y: real) {
    && Rounded(f.add(x, y), x + y, u)
    && Rounded(f.mul(x, y), x * y, u)
    && Rounded(f.fma(s, x, y), s + x * y, u)
  }

  /** Every operation meets the standard model with unit roundoff u. */
  ghost predicate Standard(f: Fpu, u: real) {
    0.0 <= u && forall s, x, y :: RoundsOnce(f, u, s, x, y)
  }

  /** Every operation returns the exact result. */
  ghost predicate IsExact(f: Fpu) {
    && (forall x, y :: f.add(x, y) == x + y)
    && (forall x, y :: f.mul(x, y) == x * y)
    && (forall s, x, y :: f.fma(s, x, y) == s + x * y)
  }

  datatype Tree =
    | Zero
    | Product(i: nat)               // a[i] * b[i]
    | Sum(left: Tree, right: Tree)
    | Fused(acc: Tree, i: nat)      // acc + a[i] * b[i] in one operation

  function At(a: seq<real>, i: nat): real { if i < |a| then a[i] else 0.0 }

  /** What the processor computes. */
  function Eval(f: Fpu, a: seq<real>, b: seq<real>, t: Tree): real {
    match t
    case Zero => 0.0
    case Product(i) => f.mul(At(a, i), At(b, i))
    case Sum(l, r) => f.add(Eval(f, a, b, l), Eval(f, a, b, r))
    case Fused(acc, i) => f.fma(Eval(f, a, b, acc), At(a, i), At(b, i))
  }

  function Max(x: nat, y: nat): nat { if x >= y then x else y }

  /** The largest number of roundings on the way from a product to the result. */
  function Height(t: Tree): nat {
    match t
    case Zero => 0
    case Product(_) => 1
    case Sum(l, r) => 1 + Max(Height(l), Height(r))
    case Fused(acc, _) => 1 + Height(acc)
  }

  function Leaves(t: Tree): multiset<nat> {
    match t
    case Zero => multiset{}
    case Product(i) => multiset{i}
    case Sum(l, r) => Leaves(l) + Leaves(r)
    case Fused(acc, i) => Leaves(acc) + multiset{i}
  }

  /** Each product below n once, and no other. */
  function Range(n: nat): multiset<nat> {
    if n == 0 then multiset{} else Range(n - 1) + multiset{n - 1}
  }

  lemma {:induction false} RangeCounts(n: nat, i: nat)
    ensures Range(n)[i] == if i < n then 1 else 0
  {
    if n > 0 { RangeCounts(n - 1, i); }
  }

  // ---------- The exact values ----------

  function Term(a: seq<real>, b: seq<real>, i: nat): real { At(a, i) * At(b, i) }

  /** The dot product of the first n elements. */
  function Dot(a: seq<real>, b: seq<real>, n: nat): real {
    if n == 0 then 0.0 else Dot(a, b, n - 1) + Term(a, b, n - 1)
  }

  /** The sum of the absolute values of the products. */
  function AbsDot(a: seq<real>, b: seq<real>, n: nat): real {
    if n == 0 then 0.0 else AbsDot(a, b, n - 1) + Abs(Term(a, b, n - 1))
  }

  function Exact(a: seq<real>, b: seq<real>, t: Tree): real {
    match t
    case Zero => 0.0
    case Product(i) => Term(a, b, i)
    case Sum(l, r) => Exact(a, b, l) + Exact(a, b, r)
    case Fused(acc, i) => Exact(a, b, acc) + Term(a, b, i)
  }

  function Total(a: seq<real>, b: seq<real>, t: Tree): real {
    match t
    case Zero => 0.0
    case Product(i) => Abs(Term(a, b, i))
    case Sum(l, r) => Total(a, b, l) + Total(a, b, r)
    case Fused(acc, i) => Total(a, b, acc) + Abs(Term(a, b, i))
  }

  // ---------- Each product once means the dot product ----------

  /** x added n times. */
  function Repeat(n: nat, x: real): (r: real)
    ensures n == 0 ==> r == 0.0
    ensures n == 1 ==> r == x
  {
    if n == 0 then 0.0 else Repeat(n - 1, x) + x
  }

  lemma {:induction false} RepeatAdds(m: nat, n: nat, x: real)
    ensures Repeat(m + n, x) == Repeat(m, x) + Repeat(n, x)
  {
    if n > 0 { RepeatAdds(m, n - 1, x); }
  }

  /** The products below n, each as often as it occurs in m. */
  function Weighted(a: seq<real>, b: seq<real>, m: multiset<nat>, n: nat): real {
    if n == 0 then 0.0 else Weighted(a, b, m, n - 1) + Repeat(m[n - 1], Term(a, b, n - 1))
  }

  function WeightedAbs(a: seq<real>, b: seq<real>, m: multiset<nat>, n: nat): real {
    if n == 0 then 0.0 else WeightedAbs(a, b, m, n - 1) + Repeat(m[n - 1], Abs(Term(a, b, n - 1)))
  }

  lemma {:induction false} WeightedAdds(a: seq<real>, b: seq<real>, l: multiset<nat>, r: multiset<nat>, n: nat)
    ensures Weighted(a, b, l + r, n) == Weighted(a, b, l, n) + Weighted(a, b, r, n)
    ensures WeightedAbs(a, b, l + r, n) == WeightedAbs(a, b, l, n) + WeightedAbs(a, b, r, n)
  {
    hide Term;
    if n > 0 {
      WeightedAdds(a, b, l, r, n - 1);
      var p := Term(a, b, n - 1);
      RepeatAdds(l[n - 1], r[n - 1], p);
      RepeatAdds(l[n - 1], r[n - 1], Abs(p));
      assert (l + r)[n - 1] == l[n - 1] + r[n - 1];
    }
  }

  lemma {:induction false} WeightedSingle(a: seq<real>, b: seq<real>, i: nat, n: nat)
    ensures Weighted(a, b, multiset{i}, n) == if i < n then Term(a, b, i) else 0.0
    ensures WeightedAbs(a, b, multiset{i}, n) == if i < n then Abs(Term(a, b, i)) else 0.0
  {
    hide Term;
    if n > 0 { WeightedSingle(a, b, i, n - 1); }
  }

  lemma {:induction false} WeightedNone(a: seq<real>, b: seq<real>, n: nat)
    ensures Weighted(a, b, multiset{}, n) == 0.0 && WeightedAbs(a, b, multiset{}, n) == 0.0
  {
    if n > 0 { WeightedNone(a, b, n - 1); }
  }

  lemma {:induction false} TreeIsWeighted(a: seq<real>, b: seq<real>, t: Tree, n: nat)
    requires forall i | i in Leaves(t) :: i < n
    ensures Exact(a, b, t) == Weighted(a, b, Leaves(t), n)
    ensures Total(a, b, t) == WeightedAbs(a, b, Leaves(t), n)
  {
    hide Term;
    match t
    case Zero => WeightedNone(a, b, n);
    case Product(i) => assert i in Leaves(t); WeightedSingle(a, b, i, n);
    case Sum(l, r) =>
      assert forall i | i in Leaves(l) || i in Leaves(r) :: i in Leaves(t);
      TreeIsWeighted(a, b, l, n);
      TreeIsWeighted(a, b, r, n);
      WeightedAdds(a, b, Leaves(l), Leaves(r), n);
    case Fused(acc, i) =>
      assert i in Leaves(t);
      assert forall j | j in Leaves(acc) :: j in Leaves(t);
      TreeIsWeighted(a, b, acc, n);
      WeightedSingle(a, b, i, n);
      WeightedAdds(a, b, Leaves(acc), multiset{i}, n);
  }

  lemma {:induction false} WeightedRange(a: seq<real>, b: seq<real>, m: multiset<nat>, n: nat)
    requires forall i: nat | i < n :: m[i] == 1
    ensures Weighted(a, b, m, n) == Dot(a, b, n)
    ensures WeightedAbs(a, b, m, n) == AbsDot(a, b, n)
  {
    hide Term;
    if n > 0 { WeightedRange(a, b, m, n - 1); }
  }

  /** Whatever the order of its additions, a tree that has each product below n once sums to the dot product. */
  lemma CoveringTreeIsDot(a: seq<real>, b: seq<real>, t: Tree, n: nat)
    requires Leaves(t) == Range(n)
    ensures Exact(a, b, t) == Dot(a, b, n)
    ensures Total(a, b, t) == AbsDot(a, b, n)
  {
    forall i: nat ensures Leaves(t)[i] == if i < n then 1 else 0 { RangeCounts(n, i); }
    TreeIsWeighted(a, b, t, n);
    WeightedRange(a, b, Leaves(t), n);
  }

  /** On exact arithmetic such a tree returns the dot product. */
  lemma CoveringTreeIsExact(f: Fpu, a: seq<real>, b: seq<real>, t: Tree, n: nat)
    requires IsExact(f) && Leaves(t) == Range(n)
    ensures Eval(f, a, b, t) == Dot(a, b, n)
  {
    ExactEval(f, a, b, t);
    CoveringTreeIsDot(a, b, t, n);
  }

  lemma {:induction false} ExactEval(f: Fpu, a: seq<real>, b: seq<real>, t: Tree)
    requires IsExact(f)
    ensures Eval(f, a, b, t) == Exact(a, b, t)
  {
    match t
    case Zero =>
    case Product(i) =>
    case Sum(l, r) => ExactEval(f, a, b, l); ExactEval(f, a, b, r);
    case Fused(acc, i) => ExactEval(f, a, b, acc);
  }

  // ---------- Rounding ----------

  lemma AddRounds(f: Fpu, u: real, x: real, y: real)
    requires Standard(f, u)
    ensures 0.0 <= u && Rounded(f.add(x, y), x + y, u)
  {
    assert RoundsOnce(f, u, 0.0, x, y);
  }

  lemma MulRounds(f: Fpu, u: real, x: real, y: real, p: real)
    requires Standard(f, u) && p == x * y
    ensures 0.0 <= u && Rounded(f.mul(x, y), p, u)
  {
    assert RoundsOnce(f, u, 0.0, x, y);
  }

  lemma FmaRounds(f: Fpu, u: real, s: real, x: real, y: real, p: real)
    requires Standard(f, u) && p == x * y
    ensures 0.0 <= u && Rounded(f.fma(s, x, y), s + p, u)
  {
    assert RoundsOnce(f, u, s, x, y);
  }

  lemma RoundedToNothing(r: real, v: real)
    ensures Rounded(r, v, 0.0) <==> r == v
  {
  }

  lemma ExactIsRounded(v: real, u: real)
    requires 0.0 <= u
    ensures Rounded(v, v, u)
  {
    TimesNonNegative(u, Abs(v));
  }

  lemma ExactRounds(f: Fpu, u: real, s: real, x: real, y: real)
    requires IsExact(f) && 0.0 <= u
    ensures RoundsOnce(f, u, s, x, y)
  {
    var p := x * y;
    assert f.mul(x, y) == p && f.fma(s, x, y) == s + p && f.add(x, y) == x + y;
    hide IsExact, Rounded;
    ExactIsRounded(x + y, u);
    ExactIsRounded(p, u);
    ExactIsRounded(s + p, u);
  }

  /** Exact arithmetic meets the model for every unit roundoff. */
  lemma ExactMeetsModel(f: Fpu, u: real)
    requires IsExact(f) && 0.0 <= u
    ensures Standard(f, u)
  {
    hide IsExact, RoundsOnce;
    forall s, x, y ensures RoundsOnce(f, u, s, x, y) { ExactRounds(f, u, s, x, y); }
  }

  /** Without roundoff the arithmetic is exact. */
  lemma NoRoundoffIsExact(f: Fpu)
    requires Standard(f, 0.0)
    ensures IsExact(f)
  {
    hide Standard, Rounded;
    forall x, y ensures f.add(x, y) == x + y {
      AddRounds(f, 0.0, x, y);
      RoundedToNothing(f.add(x, y), x + y);
    }
    forall x, y ensures f.mul(x, y) == x * y {
      MulRounds(f, 0.0, x, y, x * y);
      RoundedToNothing(f.mul(x, y), x * y);
    }
    forall s, x, y ensures f.fma(s, x, y) == s + x * y {
      FmaRounds(f, 0.0, s, x, y, x * y);
      RoundedToNothing(f.fma(s, x, y), s + x * y);
    }
  }

  /** Exact arithmetic is the case of unit roundoff 0. */
  lemma ExactIffNoRoundoff(f: Fpu)
    ensures IsExact(f) <==> Standard(f, 0.0)
  {
    hide IsExact, Standard;
    if IsExact(f) { ExactMeetsModel(f, 0.0); }
    if Standard(f, 0.0) { NoRoundoffIsExact(f); }
  }

  lemma ExactProcessor() returns (f: Fpu)
    ensures IsExact(f)
  {
    f := Fpu((x, y) => x + y, (x, y) => x * y, (s, x, y) => s + x * y);
  }

  /** The computed value of a tree is near the exact one: no product goes through more roundings than the height. */
  lemma {:induction false} EvalIsNear(f: Fpu, u: real, a: seq<real>, b: seq<real>, t: Tree)
    requires Standard(f, u)
    ensures Near(Eval(f, a, b, t), Exact(a, b, t), Total(a, b, t), u, Height(t))
  {
    hide Near, Standard, Rounded;
    AddRounds(f, u, 0.0, 0.0);
    match t
    case Zero => NearItself(0.0, u, 0);
    case Product(i) =>
      var p := Term(a, b, i);
      NearItself(p, u, 0);
      MulRounds(f, u, At(a, i), At(b, i), p);
      NearRounded(Eval(f, a, b, t), p, p, Abs(p), u, 0);
    case Sum(l, r) =>
      EvalIsNear(f, u, a, b, l);
      EvalIsNear(f, u, a, b, r);
      var v, w := Eval(f, a, b, l), Eval(f, a, b, r);
      AddRounds(f, u, v, w);
      NearSum(f.add(v, w), v, Exact(a, b, l), Total(a, b, l), Height(l), w, Exact(a, b, r), Total(a, b, r), Height(r),
              u);
    case Fused(acc, i) =>
      EvalIsNear(f, u, a, b, acc);
      var v, p := Eval(f, a, b, acc), Term(a, b, i);
      FmaRounds(f, u, v, At(a, i), At(b, i), p);
      NearItself(p, u, 0);
      NearSum(f.fma(v, At(a, i), At(b, i)), v, Exact(a, b, acc), Total(a, b, acc), Height(acc), p, p, Abs(p), 0, u);
  }

  /** A rounded sum of two near values. */
  lemma NearSum(s: real, v: real, e: real, x: real, k: nat, w: real, g: real, y: real, m: nat, u: real)
    requires 0.0 <= u && Near(v, e, x, u, k) && Near(w, g, y, u, m) && Rounded(s, v + w, u)
    ensures Near(s, e + g, x + y, u, 1 + Max(k, m))
  {
    hide Near, Rounded;
    NearWeaken(v, e, x, u, k, Max(k, m));
    NearWeaken(w, g, y, u, m, Max(k, m));
    NearPlus(v, e, x, w, g, y, u, Max(k, m));
    NearRounded(s, v + w, e + g, x + y, u, Max(k, m));
  }

  /** A tree with each product below n once and of height at most k computes the dot product with an error of at most
      ((1 + u)^k - 1) times the sum of the absolute values of the products. */
  lemma CoveringTreeIsAccurate(f: Fpu, u: real, a: seq<real>, b: seq<real>, t: Tree, n: nat, k: nat)
    requires Standard(f, u) && Leaves(t) == Range(n) && Height(t) <= k
    ensures Abs(Eval(f, a, b, t) - Dot(a, b, n)) <= (Pow(1.0 + u, k) - 1.0) * AbsDot(a, b, n)
  {
    hide *;
    AddRounds(f, u, 0.0, 0.0);
    CoveringTreeIsDot(a, b, t, n);
    EvalIsNear(f, u, a, b, t);
    NearWeaken(Eval(f, a, b, t), Dot(a, b, n), AbsDot(a, b, n), u, Height(t), k);
    NearMeans(Eval(f, a, b, t), Dot(a, b, n), AbsDot(a, b, n), u, k);
  }

  // ---------- What a kernel promises ----------

  ghost predicate IsTreeOf(f: Fpu, a: seq<real>, b: seq<real>, n: nat, x: real, h: nat, t: Tree) {
    x == Eval(f, a, b, t) && Leaves(t) == Range(n) && Height(t) <= h
  }

  /** x was computed from a and b by adding each of the first n products once, none of them rounded more than h
      times. */
  ghost predicate IsSum(f: Fpu, a: seq<real>, b: seq<real>, n: nat, x: real, h: nat) {
    exists t :: IsTreeOf(f, a, b, n, x, h, t)
  }

  lemma SumIsExact(f: Fpu, a: seq<real>, b: seq<real>, n: nat, x: real, h: nat)
    requires IsSum(f, a, b, n, x, h) && IsExact(f)
    ensures x == Dot(a, b, n)
  {
    hide IsExact, Eval, Leaves, Range, Dot;
    var t :| IsTreeOf(f, a, b, n, x, h, t);
    CoveringTreeIsExact(f, a, b, t, n);
  }

  lemma SumIsAccurate(f: Fpu, u: real, a: seq<real>, b: seq<real>, n: nat, x: real, h: nat)
    requires IsSum(f, a, b, n, x, h) && Standard(f, u)
    ensures Abs(x - Dot(a, b, n)) <= (Pow(1.0 + u, h) - 1.0) * AbsDot(a, b, n)
  {
    hide Standard, Eval, Leaves, Range, Dot, AbsDot, Pow, Abs;
    var t :| IsTreeOf(f, a, b, n, x, h, t);
    CoveringTreeIsAccurate(f, u, a, b, t, n, h);
  }
}
