/** The dot product kernels of each architecture, and the dispatching function in front of them.
    Each kernel is shown to compute one summation tree that has every product exactly once. */
module DotProduct {
  import opened Rounding
  import opened Summation
  import opened Vectors

  /** The registers x and y hold, between them, each product below n once. */
  ghost predicate Pair(f: Fpu, a: seq<real>, b: seq<real>, x: V4, s: T4, y: V4, t: T4, n: nat, h: nat) {
    Holds(f, a, b, x, s) && Holds(f, a, b, y, t) && Leaves4(s) + Leaves4(t) == Range(n) && Low(s, h) && Low(t, h)
  }

  /** The register x holds each product below n once. */
  ghost predicate Alone(f: Fpu, a: seq<real>, b: seq<real>, x: V4, s: T4, n: nat, h: nat) {
    Holds(f, a, b, x, s) && Leaves4(s) == Range(n) && Low(s, h)
  }

  /** How the counters of the three loops divide n. */
  lemma Quarters(n: nat)
    ensures 16 * (n / 16) + 4 * (n % 16 / 4) == n - n % 4 && n % 16 / 4 <= 3
  {
    var r := n % 16;
    Remainder(4 * (n / 16) + r / 4, r % 4);
  }

  lemma Remainder(x: nat, m: nat)
    requires m < 4
    ensures (4 * x + m) % 4 == m
  {
  }

  // ---------- amd64 ----------

  /** One round of the label loop16. */
  method RoundAmd64(first: seq<real>, second: seq<real>, f: Fpu, A0: V4, A1: V4, AX: nat, ghost s0: T4, ghost s1: T4,
                    ghost h: nat)
    returns (X0: V4, X1: V4, ghost t0: T4, ghost t1: T4)
    requires AX + 16 <= |first| == |second| && h >= 1
    requires Pair(f, first, second, A0, s0, A1, s1, AX, h)
    ensures Pair(f, first, second, X0, t0, X1, t1, AX + 16, h + 2)
  {
    hide Holds, Low, Add, LoadedProducts, Leaves4, Sums, Block, Range;
    var X2 := LoadedProducts(f, first, second, 4 * AX);
    var X3 := LoadedProducts(f, first, second, 16 + 4 * AX);
    var X4 := LoadedProducts(f, first, second, 32 + 4 * AX);
    var X5 := LoadedProducts(f, first, second, 48 + 4 * AX);
    SixteenIndices(AX, Leaves4(s0), Leaves4(s1));
    t0 := TwoProducts(f, first, second, A0, s0, AX, AX + 8, h);
    t1 := TwoProducts(f, first, second, A1, s1, AX + 4, AX + 12, h);
    X0 := Add(f, A0, X2);
    X1 := Add(f, A1, X3);
    X0 := Add(f, X0, X4);
    X1 := Add(f, X1, X5);
  }

  /** The label loop16: sixteen elements a round in two accumulators, which are merged at the end.
      AX counts elements, BX the rounds that are left. */
  method Loop16Amd64(first: seq<real>, second: seq<real>, f: Fpu) returns (X0: V4, AX: nat, ghost t0: T4)
    requires |first| == |second| > 0
    ensures AX == 16 * (|first| / 16)
    ensures Alone(f, first, second, X0, t0, AX, 2 * (|first| / 16) + 2)
  {
    hide Holds, Low, Add, LoadedProducts, Leaves4, Sums, Block, Range;
    EmptyRange();
    ZeroHolds(f, first, second);
    LowIsLow(ZERO_TREES, 0, 2);
    LowIsLow(ZERO_TREES, 0, 1);
    X0, AX, t0 := ZERO_VECTOR, 0, ZERO_TREES;
    var X1 := ZERO_VECTOR;
    ghost var t1 := ZERO_TREES;
    var BX: nat := |first| / 16;
    ghost var m: nat := 0;
    if BX != 0 {
      while BX != 0
        invariant m + BX == |first| / 16 && AX == 16 * m && AX + 16 * BX <= |first|
        invariant Pair(f, first, second, X0, t0, X1, t1, AX, 2 * m + 1)
      {
        X0, X1, t0, t1 := RoundAmd64(first, second, f, X0, X1, AX, t0, t1, 2 * m + 1);
        AX := AX + 16;
        BX := BX - 1;
        m := m + 1;
      }
      AddHolds(f, first, second, X0, t0, X1, t1);
      SumsAdd(t0, t1, 2 * m + 1);
      X0, t0 := Add(f, X0, X1), Sums(t0, t1);
    }
  }

  /** The label loop4: four elements a round. */
  method Loop4Amd64(first: seq<real>, second: seq<real>, f: Fpu, X: V4, A: nat, ghost s: T4, ghost h: nat)
    returns (X0: V4, AX: nat, ghost t0: T4)
    requires |first| == |second| && A == 16 * (|first| / 16) && h >= 1
    requires Alone(f, first, second, X, s, A, h)
    ensures AX == |first| - |first| % 4
    ensures Alone(f, first, second, X0, t0, AX, h + 3)
  {
    hide Holds, Low, Add, LoadedProducts, Leaves4;
    X0, AX, t0 := X, A, s;
    var BX: nat := |first| % 16 / 4;
    Quarters(|first|);
    ghost var last, g := AX + 4 * BX, h;
    while BX != 0
      invariant AX + 4 * BX == last <= |first| && g + BX <= h + 3 && g >= 1
      invariant Alone(f, first, second, X0, t0, AX, g)
    {
      var X2 := LoadedProducts(f, first, second, 4 * AX);
      t0 := FourProducts(f, first, second, X0, t0, AX, g);
      X0 := Add(f, X0, X2);
      AX := AX + 4;
      BX := BX - 1;
      g := g + 1;
    }
    LowIsLow(t0, g, h + 3);
  }

  /** The label scalar: the last zero to three elements. */
  method ScalarAmd64(first: seq<real>, second: seq<real>, f: Fpu, x: real, A: nat, ghost s: Tree)
    returns (x0: real, ghost t: Tree)
    requires |first| == |second| && A == |first| - |first| % 4
    requires x == Eval(f, first, second, s) && Leaves(s) == Range(A)
    ensures x0 == Eval(f, first, second, t) && Leaves(t) == Range(|first|)
    ensures Height(t) <= Max(Height(s), 1) + 3
  {
    hide Eval, Leaves, Height, Range, Load1;
    x0, t := x, s;
    var AX, BX: nat := A, |first| % 4;
    ghost var h := Max(Height(s), 1);
    while BX != 0
      invariant BX <= 3 && AX + BX == |first|
      invariant x0 == Eval(f, first, second, t) && Leaves(t) == Range(AX)
      invariant Height(t) <= h + 3 - BX
    {
      var x2 := f.mul(Load1(first, 4 * AX), Load1(second, 4 * AX));
      OneProduct(f, first, second, x0, t, AX);
      x0 := f.add(x0, x2);
      t := Sum(t, Product(AX));
      AX := AX + 1;
      BX := BX - 1;
    }
  }

  /** dot_amd64.s */
  method DotAmd64(first: seq<real>, second: seq<real>, f: Fpu) returns (ret: real)
    requires |first| == |second| > 0
    ensures IsSum(f, first, second, |first|, ret, 2 * (|first| / 16) + 10)
  {
    hide Holds, Low, Leaves4, AddPairs, Eval, Height;
    var X0, AX;
    ghost var t0, t;
    ghost var h := 2 * (|first| / 16) + 2;
    X0, AX, t0 := Loop16Amd64(first, second, f);
    X0, AX, t0 := Loop4Amd64(first, second, f, X0, AX, t0, h);
    ReduceHolds(f, first, second, X0, t0);
    ReducedAdds(t0, h + 3);
    X0 := AddPairs(f, X0);
    X0 := AddPairs(f, X0);
    ret, t := ScalarAmd64(first, second, f, X0.x0, AX, Reduced(t0));
    assert IsTreeOf(f, first, second, |first|, ret, 2 * (|first| / 16) + 10, t);
  }

  /** The scalar loops add one product at a time. */
  lemma OneProduct(f: Fpu, a: seq<real>, b: seq<real>, x: real, s: Tree, n: nat)
    requires n < |a| == |b| && x == Eval(f, a, b, s) && Leaves(s) == Range(n)
    ensures f.add(x, f.mul(Load1(a, 4 * n), Load1(b, 4 * n))) == Eval(f, a, b, Sum(s, Product(n)))
    ensures Leaves(Sum(s, Product(n))) == Range(n + 1)
    ensures Height(Sum(s, Product(n))) <= Max(Height(s), 1) + 1
  {
    hide Load1, At;
    LoadedElement(a, n);
    LoadedElement(b, n);
  }

  lemma LoadedElement(mem: seq<real>, n: nat)
    requires n < |mem|
    ensures InBounds(mem, 4 * n, 1) && Load1(mem, 4 * n) == At(mem, n)
  {
  }

  lemma FourProducts(f: Fpu, a: seq<real>, b: seq<real>, x: V4, s: T4, n: nat, h: nat) returns (s': T4)
    requires Alone(f, a, b, x, s, n, h) && n + 4 <= |a| == |b| && h >= 1
    ensures Alone(f, a, b, Add(f, x, LoadedProducts(f, a, b, 4 * n)), s', n + 4, h + 1)
  {
    hide Holds, Low, Add, LoadedProducts, Leaves4, Block, Range;
    s' := Sums(s, Products(n));
    MulLoaded(f, a, b, n);
    ProductsBlock(n);
    LowIsLow(Products(n), 1, h);
    AddHolds(f, a, b, x, s, LoadedProducts(f, a, b, 4 * n), Products(n));
    SumsAdd(s, Products(n), h);
    RangeBlock(n);
  }

  /** One round of the main loop adds sixteen products, eight to each accumulator. */
  lemma SixteenIndices(n: nat, x: multiset<nat>, y: multiset<nat>)
    requires x + y == Range(n)
    ensures (x + Block(n) + Block(n + 8)) + (y + Block(n + 4) + Block(n + 12)) == Range(n + 16)
  {
    hide Block, Range;
    RangeBlock(n);
    RangeBlock(n + 4);
    RangeBlock(n + 8);
    RangeBlock(n + 12);
  }

  lemma TwoProducts(f: Fpu, a: seq<real>, b: seq<real>, x: V4, s: T4, i: nat, j: nat, h: nat) returns (s': T4)
    requires Holds(f, a, b, x, s) && Low(s, h) && h >= 1
    requires i + 4 <= |a| == |b| && j + 4 <= |a|
    ensures Holds(f, a, b, Add(f, Add(f, x, LoadedProducts(f, a, b, 4 * i)), LoadedProducts(f, a, b, 4 * j)), s')
    ensures Leaves4(s') == Leaves4(s) + Block(i) + Block(j) && Low(s', h + 2)
  {
    s' := Sums(Sums(s, Products(i)), Products(j));
    MulLoaded(f, a, b, i);
    MulLoaded(f, a, b, j);
    ProductsBlock(i);
    ProductsBlock(j);
    SumsAdd(s, Products(i), h);
    SumsAdd(Sums(s, Products(i)), Products(j), h + 1);
  }

  // ---------- arm64 ----------

  /** Four registers hold, between them, each product below n once. */
  ghost predicate Quad(f: Fpu, a: seq<real>, b: seq<real>, v0: V4, t0: T4, v1: V4, t1: T4, v2: V4, t2: T4, v3: V4,
                       t3: T4, n: nat, h: nat) {
    && Holds(f, a, b, v0, t0) && Holds(f, a, b, v1, t1) && Holds(f, a, b, v2, t2) && Holds(f, a, b, v3, t3)
    && Low(t0, h) && Low(t1, h) && Low(t2, h) && Low(t3, h)
    && Leaves4(t0) + Leaves4(t1) + Leaves4(t2) + Leaves4(t3) == Range(n)
  }

  /** What FMLA makes of an accumulator and of what the pointers p and q show at. */
  function LoadedFma(f: Fpu, a: seq<real>, b: seq<real>, p: int, q: int, acc: V4): V4
    requires InBounds(a, p, 4) && InBounds(b, q, 4)
  {
    Fma(f, acc, Load4(a, p), Load4(b, q))
  }

  lemma OneFused(f: Fpu, a: seq<real>, b: seq<real>, x: V4, s: T4, i: nat, h: nat)
    requires Holds(f, a, b, x, s) && Low(s, h) && i + 4 <= |a| == |b|
    ensures Holds(f, a, b, LoadedFma(f, a, b, 4 * i, 4 * i, x), Fuseds(s, i))
    ensures Leaves4(Fuseds(s, i)) == Leaves4(s) + Block(i) && Low(Fuseds(s, i), h + 1)
  {
    hide Holds, Low, Leaves4, Block;
    FmaLoaded(f, a, b, i, x, s);
    FusedsAdd(s, i, h);
  }

  lemma SixteenMore(n: nat, x: multiset<nat>, y: multiset<nat>, z: multiset<nat>, w: multiset<nat>)
    requires x + y + z + w == Range(n)
    ensures (x + Block(n)) + (y + Block(n + 4)) + (z + Block(n + 8)) + (w + Block(n + 12)) == Range(n + 16)
  {
    hide Block, Range;
    RangeBlock(n);
    RangeBlock(n + 4);
    RangeBlock(n + 8);
    RangeBlock(n + 12);
    Regroup(x, y, z, w, Block(n), Block(n + 4), Block(n + 8), Block(n + 12));
  }

  lemma FourFused(f: Fpu, a: seq<real>, b: seq<real>, x: V4, s: T4, n: nat, h: nat)
    requires Alone(f, a, b, x, s, n, h) && n + 4 <= |a| == |b|
    ensures Alone(f, a, b, LoadedFma(f, a, b, 4 * n, 4 * n, x), Fuseds(s, n), n + 4, h + 1)
  {
    hide Holds, Low, LoadedFma, Leaves4, Block, Range;
    OneFused(f, a, b, x, s, n, h);
    RangeBlock(n);
  }

  /** The three additions that merge the accumulators of the main loop. */
  lemma Merge(f: Fpu, a: seq<real>, b: seq<real>, v0: V4, t0: T4, v1: V4, t1: T4, v2: V4, t2: T4, v3: V4, t3: T4,
              n: nat, h: nat)
    requires Quad(f, a, b, v0, t0, v1, t1, v2, t2, v3, t3, n, h)
    ensures Alone(f, a, b, Add(f, Add(f, v0, v1), Add(f, v2, v3)), Sums(Sums(t0, t1), Sums(t2, t3)), n, h + 2)
  {
    hide Holds, Low, Add, Leaves4, Range, Sums;
    AddHolds(f, a, b, v0, t0, v1, t1);
    AddHolds(f, a, b, v2, t2, v3, t3);
    AddHolds(f, a, b, Add(f, v0, v1), Sums(t0, t1), Add(f, v2, v3), Sums(t2, t3));
    SumsAdd(t0, t1, h);
    SumsAdd(t2, t3, h);
    SumsAdd(Sums(t0, t1), Sums(t2, t3), h + 1);
  }

  /** One round of the label loop16; n products have been added so far. */
  method RoundArm64(first: seq<real>, second: seq<real>, f: Fpu, A0: V4, A1: V4, A2: V4, A3: V4, P0: int, P2: int,
                    ghost s0: T4, ghost s1: T4, ghost s2: T4, ghost s3: T4, ghost n: nat, ghost h: nat)
    returns (V0: V4, V1: V4, V2: V4, V3: V4, R0: int, R2: int, ghost t0: T4, ghost t1: T4, ghost t2: T4, ghost t3: T4)
    requires n + 16 <= |first| == |second| && P0 == P2 == 4 * n
    requires Quad(f, first, second, A0, s0, A1, s1, A2, s2, A3, s3, n, h)
    ensures R0 == R2 == 4 * (n + 16)
    ensures Quad(f, first, second, V0, t0, V1, t1, V2, t2, V3, t3, n + 16, h + 1)
  {
    hide Holds, Low, LoadedFma, Leaves4, Block, Range, Fuseds;
    SixteenMore(n, Leaves4(s0), Leaves4(s1), Leaves4(s2), Leaves4(s3));
    OneFused(f, first, second, A0, s0, n, h);
    OneFused(f, first, second, A1, s1, n + 4, h);
    OneFused(f, first, second, A2, s2, n + 8, h);
    OneFused(f, first, second, A3, s3, n + 12, h);
    V0 := LoadedFma(f, first, second, P0, P2, A0);
    V1 := LoadedFma(f, first, second, P0 + 16, P2 + 16, A1);
    V2 := LoadedFma(f, first, second, P0 + 32, P2 + 32, A2);
    V3 := LoadedFma(f, first, second, P0 + 48, P2 + 48, A3);
    R0, R2 := P0 + 64, P2 + 64;
    t0, t1, t2, t3 := Fuseds(s0, n), Fuseds(s1, n + 4), Fuseds(s2, n + 8), Fuseds(s3, n + 12);
  }

  /** The label loop16: the pointers R0 and R2 move on by each load, R1 counts the elements that are left. */
  method Loop16Arm64(first: seq<real>, second: seq<real>, f: Fpu)
    returns (V0: V4, R0: int, R1: nat, R2: int, ghost t0: T4)
    requires |first| == |second| > 0
    ensures R1 == |first| % 16 && R0 == R2 == 4 * (|first| - R1)
    ensures Alone(f, first, second, V0, t0, |first| - R1, |first| / 16 + 2)
  {
    hide Holds, Low, Add, LoadedFma, Leaves4, Sums, Block, Range, Fuseds;
    ZeroHolds(f, first, second);
    EmptyRange();
    var V1, V2, V3;
    V0, V1, V2, V3 := ZERO_VECTOR, ZERO_VECTOR, ZERO_VECTOR, ZERO_VECTOR;
    ghost var t1, t2, t3;
    t0, t1, t2, t3 := ZERO_TREES, ZERO_TREES, ZERO_TREES, ZERO_TREES;
    ghost var m: nat := 0;
    R0, R1, R2 := 0, |first|, 0;
    if R1 >= 16 {
      while R1 >= 16
        invariant 16 * m + R1 == |first| && R0 == R2 == 64 * m
        invariant Quad(f, first, second, V0, t0, V1, t1, V2, t2, V3, t3, 16 * m, m)
      {
        V0, V1, V2, V3, R0, R2, t0, t1, t2, t3 :=
          RoundArm64(first, second, f, V0, V1, V2, V3, R0, R2, t0, t1, t2, t3, 16 * m, m);
        R1 := R1 - 16;
        m := m + 1;
      }
      Merge(f, first, second, V0, t0, V1, t1, V2, t2, V3, t3, 16 * m, m);
      V0 := Add(f, V0, V1);
      V2 := Add(f, V2, V3);
      V0 := Add(f, V0, V2);
      t0 := Sums(Sums(t0, t1), Sums(t2, t3));
    } else {
      LowIsLow(t0, 0, 2);
    }
    Sixteens(|first|, m, R1);
  }

  lemma EmptyRange()
    ensures Range(0) == multiset{}
  {
  }

  lemma Sixteens(n: nat, m: nat, r: nat)
    requires 16 * m + r == n && r < 16
    ensures m == n / 16 && r == n % 16
  {
  }

  /** The label loop4. */
  method Loop4Arm64(first: seq<real>, second: seq<real>, f: Fpu, V: V4, P0: int, N: nat, P2: int, ghost s: T4,
                    ghost h: nat)
    returns (V0: V4, R0: int, R1: nat, R2: int, ghost t0: T4)
    requires |first| == |second| && N <= |first| && N < 16 && P0 == P2 == 4 * (|first| - N)
    requires Alone(f, first, second, V, s, |first| - N, h)
    ensures R1 <= 3 && R1 <= |first| && R0 == R2 == 4 * (|first| - R1)
    ensures Alone(f, first, second, V0, t0, |first| - R1, h + 3)
  {
    hide Holds, Low, LoadedFma, Leaves4, Range, Fuseds;
    V0, R0, R1, R2, t0 := V, P0, N, P2, s;
    ghost var g := h;
    while R1 >= 4
      invariant R1 <= |first| && R0 == R2 == 4 * (|first| - R1)
      invariant 4 * (g - h) + R1 < 16 && g >= h
      invariant Alone(f, first, second, V0, t0, |first| - R1, g)
    {
      FourFused(f, first, second, V0, t0, |first| - R1, g);
      V0 := LoadedFma(f, first, second, R0, R2, V0);
      t0 := Fuseds(t0, |first| - R1);
      R0, R2 := R0 + 16, R2 + 16;
      R1 := R1 - 4;
      g := g + 1;
    }
    LowIsLow(t0, g, h + 3);
  }

  /** The label scalar, which rounds the product and the sum separately. */
  method ScalarArm64(first: seq<real>, second: seq<real>, f: Fpu, x: real, P0: int, N: nat, P2: int, ghost s: Tree)
    returns (F0: real, ghost t: Tree)
    requires |first| == |second| && N <= 3 && N <= |first| && P0 == P2 == 4 * (|first| - N)
    requires x == Eval(f, first, second, s) && Leaves(s) == Range(|first| - N)
    ensures F0 == Eval(f, first, second, t) && Leaves(t) == Range(|first|)
    ensures Height(t) <= Max(Height(s), 1) + 3
  {
    hide Eval, Leaves, Height, Range, Load1;
    F0, t := x, s;
    var R0, R2 := P0, P2;
    var R1: nat := N;
    ghost var h := Max(Height(s), 1);
    while R1 != 0
      invariant R1 <= 3 && R1 <= |first| && R0 == R2 == 4 * (|first| - R1)
      invariant F0 == Eval(f, first, second, t) && Leaves(t) == Range(|first| - R1)
      invariant Height(t) <= h + 3 - R1
    {
      ghost var n: nat := |first| - R1;
      assert R0 == R2 == 4 * n && n < |first|;
      var F1 := Load1(first, R0);
      var F2 := Load1(second, R2);
      OneProduct(f, first, second, F0, t, n);
      F1 := f.mul(F1, F2);
      F0 := f.add(F0, F1);
      t := Sum(t, Product(n));
      R0, R2 := R0 + 4, R2 + 4;
      R1 := R1 - 1;
    }
  }

  /** dot_arm64.s */
  method DotArm64(first: seq<real>, second: seq<real>, f: Fpu) returns (ret: real)
    requires |first| == |second| > 0
    ensures IsSum(f, first, second, |first|, ret, |first| / 16 + 10)
  {
    hide Holds, Low, Leaves4, AddPairs, Eval, Height;
    var V0, R0, R1, R2;
    ghost var t0, t;
    ghost var h := |first| / 16 + 2;
    V0, R0, R1, R2, t0 := Loop16Arm64(first, second, f);
    V0, R0, R1, R2, t0 := Loop4Arm64(first, second, f, V0, R0, R1, R2, t0, h);
    ReduceHolds(f, first, second, V0, t0);
    ReducedAdds(t0, h + 3);
    V0 := AddPairs(f, V0);
    V0 := AddPairs(f, V0);
    ret, t := ScalarArm64(first, second, f, V0.x0, R0, R1, R2, Reduced(t0));
    assert IsTreeOf(f, first, second, |first|, ret, |first| / 16 + 10, t);
  }

  // ---------- The portable loop ----------

  lemma OneElement(f: Fpu, a: seq<real>, b: seq<real>, x: real, s: Tree, n: nat)
    requires n < |a| <= |b| && x == Eval(f, a, b, s) && Leaves(s) == Range(n) && Height(s) <= n + 1
    ensures f.add(x, f.mul(a[n], b[n])) == Eval(f, a, b, Sum(s, Product(n)))
    ensures f.fma(x, a[n], b[n]) == Eval(f, a, b, Fused(s, n))
    ensures Leaves(Sum(s, Product(n))) == Leaves(Fused(s, n)) == Range(n + 1)
    ensures Height(Sum(s, Product(n))) <= n + 2 && Height(Fused(s, n)) <= n + 2
  {
  }

  /** dot_generic.go: one element after the other. The compiler may fuse the multiplication and the addition
      of any iteration. */
  method DotGeneric(first: seq<real>, second: seq<real>, f: Fpu, fuses: nat -> bool) returns (sum: real)
    requires |first| <= |second|
    ensures IsSum(f, first, second, |first|, sum, |first| + 1)
  {
    hide Eval, Leaves, Height, Range, Load1;
    sum := 0.0;
    ghost var t := Zero;
    NothingToSum(f, first, second);
    for idx := 0 to |first|
      invariant sum == Eval(f, first, second, t) && Leaves(t) == Range(idx)
      invariant Height(t) <= idx + 1
    {
      OneElement(f, first, second, sum, t, idx);
      if fuses(idx) {
        sum := f.fma(sum, first[idx], second[idx]);
        t := Fused(t, idx);
      } else {
        sum := f.add(sum, f.mul(first[idx], second[idx]));
        t := Sum(t, Product(idx));
      }
    }
    assert IsTreeOf(f, first, second, |first|, sum, |first| + 1, t);
  }

  // ---------- DotFloat32 ----------

  datatype Arch = Amd64 | Arm64 | Generic

  /** Only the elements that both slices have count. On every architecture the result is exact on exact arithmetic, and
      within the standard error bound otherwise. */
  method DotFloat32(arch: Arch, first: seq<real>, second: seq<real>, f: Fpu, fuses: nat -> bool) returns (ret: real)
    ensures first == [] || second == [] ==> ret == 0.0
    ensures IsExact(f) && |first| <= |second| ==> ret == Dot(first, second, |first|)
    ensures IsExact(f) && |second| <= |first| ==> ret == Dot(first, second, |second|)
    ensures forall u, n: nat |
              Standard(f, u) && n <= |first| && n <= |second| && (n == |first| || n == |second|) ::
              var k := match arch case Amd64 => 2 * (n / 16) + 10 case Arm64 => n / 16 + 10 case Generic => n + 1;
              Abs(ret - Dot(first, second, n)) <= (Pow(1.0 + u, k) - 1.0) * AbsDot(first, second, n)
  {
    hide IsSum, IsExact, Standard, Pow, Dot, AbsDot, Abs;
    var count := if |first| <= |second| then |first| else |second|;
    var a, b := first[..count], second[..count];
    ghost var k := match arch
      case Amd64 => 2 * (count / 16) + 10
      case Arm64 => count / 16 + 10
      case Generic => count + 1;
    if count == 0 {
      ret := 0.0;
      EmptySum(f, a, b, k);
    } else {
      match arch
      case Amd64 => ret := DotAmd64(a, b, f);
      case Arm64 => ret := DotArm64(a, b, f);
      case Generic => ret := DotGeneric(a, b, f, fuses);
    }
    DotOfPrefix(first, second, count, count);
    if IsExact(f) { SumIsExact(f, a, b, count, ret, k); }
    forall u | Standard(f, u)
      ensures Abs(ret - Dot(first, second, count)) <= (Pow(1.0 + u, k) - 1.0) * AbsDot(first, second, count)
    {
      SumIsAccurate(f, u, a, b, count, ret, k);
    }
  }

  lemma EmptySum(f: Fpu, a: seq<real>, b: seq<real>, h: nat)
    ensures IsSum(f, a, b, 0, 0.0, h)
  {
    assert IsTreeOf(f, a, b, 0, 0.0, h, Zero);
  }

  lemma NothingToSum(f: Fpu, a: seq<real>, b: seq<real>)
    ensures Eval(f, a, b, Zero) == 0.0 && Leaves(Zero) == Range(0) && Height(Zero) == 0
  {
  }

  lemma {:induction false} DotOfPrefix(a: seq<real>, b: seq<real>, count: nat, n: nat)
    requires n <= count <= |a| && count <= |b|
    ensures Dot(a[..count], b[..count], n) == Dot(a, b, n)
    ensures AbsDot(a[..count], b[..count], n) == AbsDot(a, b, n)
  {
    if n > 0 {
      DotOfPrefix(a, b, count, n - 1);
      assert At(a[..count], n - 1) == At(a, n - 1) && At(b[..count], n - 1) == At(b, n - 1);
    }
  }
}
