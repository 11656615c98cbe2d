/** The vector registers and instructions that the kernels use: four 32-bit lanes, memory addressed in bytes.
    A register that holds partial sums is described by four summation trees. */
module Vectors {
  import opened Summation

  datatype V4 = V4(x0: real, x1: real, x2: real, x3: real)

  const ZERO_VECTOR := V4(0.0, 0.0, 0.0, 0.0)

  /** `at` is the byte offset of n whole floats inside the slice. */
  predicate InBounds(mem: seq<real>, at: int, n: nat) {
    0 <= at && at % 4 == 0 && at + 4 * n <= 4 * |mem|
  }

  /** MOVUPS, VLD1: four floats. */
  function Load4(mem: seq<real>, at: int): V4
    requires InBounds(mem, at, 4)
  {
    V4(mem[at / 4], mem[at / 4 + 1], mem[at / 4 + 2], mem[at / 4 + 3])
  }

  /** MOVSS, FMOVS: one float. */
  function Load1(mem: seq<real>, at: int): real
    requires InBounds(mem, at, 1)
  {
    mem[at / 4]
  }

  /** The products of what lies at the same place of both slices. */
  function LoadedProducts(f: Fpu, a: seq<real>, b: seq<real>, at: int): V4
    requires InBounds(a, at, 4) && InBounds(b, at, 4)
  {
    Mul(f, Load4(a, at), Load4(b, at))
  }

  /** MULPS: four products. */
  function Mul(f: Fpu, x: V4, y: V4): V4 {
    V4(f.mul(x.x0, y.x0), f.mul(x.x1, y.x1), f.mul(x.x2, y.x2), f.mul(x.x3, y.x3))
  }

  /** ADDPS, FADD: four sums. */
  function Add(f: Fpu, x: V4, y: V4): V4 {
    V4(f.add(x.x0, y.x0), f.add(x.x1, y.x1), f.add(x.x2, y.x2), f.add(x.x3, y.x3))
  }

  /** FMLA: four fused multiply-adds. */
  function Fma(f: Fpu, acc: V4, x: V4, y: V4): V4 {
    V4(f.fma(acc.x0, x.x0, y.x0), f.fma(acc.x1, x.x1, y.x1), f.fma(acc.x2, x.x2, y.x2), f.fma(acc.x3, x.x3, y.x3))
  }

  /** HADDPS or FADDP of a register with itself: neighbouring lanes are added. */
  function AddPairs(f: Fpu, x: V4): V4 {
    V4(f.add(x.x0, x.x1), f.add(x.x2, x.x3), f.add(x.x0, x.x1), f.add(x.x2, x.x3))
  }

  // ---------- Trees of a register ----------

  datatype T4 = T4(t0: Tree, t1: Tree, t2: Tree, t3: Tree)

  const ZERO_TREES := T4(Zero, Zero, Zero, Zero)

  function Products(i: nat): T4 { T4(Product(i), Product(i + 1), Product(i + 2), Product(i + 3)) }

  function Sums(s: T4, t: T4): T4 { T4(Sum(s.t0, t.t0), Sum(s.t1, t.t1), Sum(s.t2, t.t2), Sum(s.t3, t.t3)) }

  function Fuseds(s: T4, i: nat): T4 {
    T4(Fused(s.t0, i), Fused(s.t1, i + 1), Fused(s.t2, i + 2), Fused(s.t3, i + 3))
  }

  /** All four lanes added, neighbours first. */
  function Reduced(t: T4): Tree { Sum(Sum(t.t0, t.t1), Sum(t.t2, t.t3)) }

  function Leaves4(t: T4): multiset<nat> { Leaves(t.t0) + Leaves(t.t1) + Leaves(t.t2) + Leaves(t.t3) }

  /** No tree is higher than h. */
  ghost predicate Low(t: T4, h: nat) {
    Height(t.t0) <= h && Height(t.t1) <= h && Height(t.t2) <= h && Height(t.t3) <= h
  }

  lemma LowIsLow(t: T4, h: nat, k: nat)
    requires Low(t, h) && h <= k
    ensures Low(t, k)
  {
  }

  /** The lanes hold what the trees compute. */
  ghost predicate Holds(f: Fpu, a: seq<real>, b: seq<real>, x: V4, t: T4) {
    && x.x0 == Eval(f, a, b, t.t0)
    && x.x1 == Eval(f, a, b, t.t1)
    && x.x2 == Eval(f, a, b, t.t2)
    && x.x3 == Eval(f, a, b, t.t3)
  }

  /** The four products from i on. */
  function Block(i: nat): multiset<nat> { multiset{i} + multiset{i + 1} + multiset{i + 2} + multiset{i + 3} }

  lemma RangeBlock(n: nat)
    ensures Range(n + 4) == Range(n) + Block(n)
  {
    assert Range(n + 1) == Range(n) + multiset{n};
    assert Range(n + 2) == Range(n + 1) + multiset{n + 1};
    assert Range(n + 3) == Range(n + 2) + multiset{n + 2};
    assert Range(n + 4) == Range(n + 3) + multiset{n + 3};
  }

  lemma Regroup(a0: multiset<nat>, a1: multiset<nat>, a2: multiset<nat>, a3: multiset<nat>,
                b0: multiset<nat>, b1: multiset<nat>, b2: multiset<nat>, b3: multiset<nat>)
    ensures (a0 + b0) + (a1 + b1) + (a2 + b2) + (a3 + b3) == (a0 + a1 + a2 + a3) + (b0 + b1 + b2 + b3)
  {
  }

  lemma ProductsBlock(n: nat)
    ensures Leaves4(Products(n)) == Block(n) && Low(Products(n), 1)
  {
  }

  lemma SumsAdd(s: T4, t: T4, h: nat)
    requires Low(s, h) && Low(t, h)
    ensures Leaves4(Sums(s, t)) == Leaves4(s) + Leaves4(t) && Low(Sums(s, t), h + 1)
  {
    var a0, a1, a2, a3 := Leaves(s.t0), Leaves(s.t1), Leaves(s.t2), Leaves(s.t3);
    var b0, b1, b2, b3 := Leaves(t.t0), Leaves(t.t1), Leaves(t.t2), Leaves(t.t3);
    assert Leaves4(Sums(s, t)) == (a0 + b0) + (a1 + b1) + (a2 + b2) + (a3 + b3);
    Regroup(a0, a1, a2, a3, b0, b1, b2, b3);
  }

  lemma FusedsAdd(s: T4, i: nat, h: nat)
    requires Low(s, h)
    ensures Leaves4(Fuseds(s, i)) == Leaves4(s) + Block(i) && Low(Fuseds(s, i), h + 1)
  {
    Regroup(Leaves(s.t0), Leaves(s.t1), Leaves(s.t2), Leaves(s.t3),
            multiset{i}, multiset{i + 1}, multiset{i + 2}, multiset{i + 3});
  }

  lemma ReducedAdds(t: T4, h: nat)
    requires Low(t, h)
    ensures Leaves(Reduced(t)) == Leaves4(t) && Height(Reduced(t)) <= h + 2
  {
  }

  // ---------- Instructions compute trees ----------

  lemma MulLoaded(f: Fpu, a: seq<real>, b: seq<real>, i: nat)
    requires i + 4 <= |a| && i + 4 <= |b|
    ensures Holds(f, a, b, LoadedProducts(f, a, b, 4 * i), Products(i))
  {
  }

  lemma ZeroHolds(f: Fpu, a: seq<real>, b: seq<real>)
    ensures Holds(f, a, b, ZERO_VECTOR, ZERO_TREES) && Leaves4(ZERO_TREES) == multiset{} && Low(ZERO_TREES, 0)
  {
  }

  lemma AddHolds(f: Fpu, a: seq<real>, b: seq<real>, x: V4, s: T4, y: V4, t: T4)
    requires Holds(f, a, b, x, s) && Holds(f, a, b, y, t)
    ensures Holds(f, a, b, Add(f, x, y), Sums(s, t))
  {
  }

  lemma FmaLoaded(f: Fpu, a: seq<real>, b: seq<real>, i: nat, acc: V4, t: T4)
    requires i + 4 <= |a| && i + 4 <= |b| && Holds(f, a, b, acc, t)
    ensures Holds(f, a, b, Fma(f, acc, Load4(a, 4 * i), Load4(b, 4 * i)), Fuseds(t, i))
  {
  }

  lemma ReduceHolds(f: Fpu, a: seq<real>, b: seq<real>, x: V4, t: T4)
    requires Holds(f, a, b, x, t)
    ensures AddPairs(f, AddPairs(f, x)).x0 == Eval(f, a, b, Reduced(t))
  {
  }
}
