/** dst = mat * vec for a 64 x 32 matrix stored row by row. The kernels load the vector once and keep it in registers
    while two pointers move through the rows of the matrix and the elements of the result. */
module MatrixVector {
  import opened Rounding
  import opened Summation
  import opened Vectors
  import DotProduct

  const ROWS := 64
  const COLUMNS := 32

  /** Row i of a matrix stored row by row. */
  function Row(mat: seq<real>, i: nat): seq<real>
    requires |mat| == ROWS * COLUMNS && i < ROWS
  {
    mat[COLUMNS * i..COLUMNS * i + COLUMNS]
  }

  /** x is row i of the product, with each of the 32 terms once and none of them rounded more than h times. */
  ghost predicate Computed(f: Fpu, mat: seq<real>, vec: seq<real>, i: nat, x: real, h: nat) {
    |mat| == ROWS * COLUMNS && i < ROWS && IsSum(f, Row(mat, i), vec, COLUMNS, x, h)
  }

  // ---------- The portable loop ----------

  /** matvec_generic.go; the compiler may fuse the multiplication and the addition of any iteration. */
  method ProductGeneric(dst: array<real>, mat: array<real>, vec: array<real>, f: Fpu, fuses: (nat, nat) -> bool)
    requires dst.Length == ROWS && mat.Length == ROWS * COLUMNS && vec.Length == COLUMNS
    requires dst != mat && dst != vec
    modifies dst
    ensures forall i | 0 <= i < ROWS :: Computed(f, mat[..], vec[..], i, dst[i], COLUMNS + 1)
  {
    hide Computed;
    ghost var a, b := mat[..], vec[..];
    for i := 0 to ROWS
      invariant mat[..] == a && vec[..] == b
      invariant forall r | 0 <= r < i :: Computed(f, a, b, r, dst[r], COLUMNS + 1)
    {
      var sum := RowGeneric(mat, i, vec, f, (j: nat) => fuses(i, j));
      dst[i] := sum;
    }
  }

  /** The inner loop. */
  method RowGeneric(mat: array<real>, i: nat, vec: array<real>, f: Fpu, fuses: nat -> bool) returns (sum: real)
    requires mat.Length == ROWS * COLUMNS && vec.Length == COLUMNS && i < ROWS
    ensures Computed(f, mat[..], vec[..], i, sum, COLUMNS + 1)
  {
    hide Eval, Leaves, Height, Range;
    sum := 0.0;
    ghost var t, row, b := Zero, Row(mat[..], i), vec[..];
    DotProduct.NothingToSum(f, row, b);
    for j := 0 to COLUMNS
      invariant sum == Eval(f, row, b, t) && Leaves(t) == Range(j) && Height(t) <= j + 1
    {
      DotProduct.OneElement(f, row, b, sum, t, j);
      if fuses(j) {
        sum := f.fma(sum, mat[COLUMNS * i + j], vec[j]);
        t := Fused(t, j);
      } else {
        sum := f.add(sum, f.mul(mat[COLUMNS * i + j], vec[j]));
        t := Sum(t, Product(j));
      }
    }
    assert IsTreeOf(f, row, b, COLUMNS, sum, COLUMNS + 1, t);
  }

  // ---------- Registers that hold a part of a row ----------

  /** Eight registers hold the vector. */
  datatype V32 = V32(v0: V4, v1: V4, v2: V4, v3: V4, v4: V4, v5: V4, v6: V4, v7: V4)

  ghost predicate Hoisted(vec: seq<real>, v: V32) {
    && |vec| == COLUMNS
    && v.v0 == Load4(vec, 0) && v.v1 == Load4(vec, 16) && v.v2 == Load4(vec, 32) && v.v3 == Load4(vec, 48)
    && v.v4 == Load4(vec, 64) && v.v5 == Load4(vec, 80) && v.v6 == Load4(vec, 96) && v.v7 == Load4(vec, 112)
  }

  /** The register x holds the products listed in m, by trees at most h high. */
  ghost predicate Part(f: Fpu, row: seq<real>, vec: seq<real>, x: V4, s: T4, m: multiset<nat>, h: nat) {
    Holds(f, row, vec, x, s) && Leaves4(s) == m && Low(s, h)
  }

  lemma LoadedFromRow(mat: seq<real>, i: nat, k: nat)
    requires |mat| == ROWS * COLUMNS && i < ROWS && k < 8
    ensures InBounds(mat, 128 * i + 16 * k, 4) && InBounds(Row(mat, i), 16 * k, 4)
    ensures Load4(mat, 128 * i + 16 * k) == Load4(Row(mat, i), 16 * k)
  {
  }

  /** MULPS into a fresh accumulator. */
  lemma FirstProducts(f: Fpu, row: seq<real>, vec: seq<real>, n: nat)
    requires n + 4 <= |row| == |vec|
    ensures Part(f, row, vec, Mul(f, Load4(row, 4 * n), Load4(vec, 4 * n)), Products(n), Block(n), 1)
  {
    hide Holds, Low, Leaves4, Block, Mul, Load4;
    MulLoaded(f, row, vec, n);
    ProductsBlock(n);
  }

  /** MULPS and ADDPS. */
  lemma MoreProducts(f: Fpu, row: seq<real>, vec: seq<real>, x: V4, s: T4, m: multiset<nat>, n: nat, h: nat)
    requires Part(f, row, vec, x, s, m, h) && h >= 1 && n + 4 <= |row| == |vec|
    ensures Part(f, row, vec, Add(f, x, Mul(f, Load4(row, 4 * n), Load4(vec, 4 * n))), Sums(s, Products(n)),
                 m + Block(n), h + 1)
  {
    hide Holds, Low, Leaves4, Block, Mul, Load4, Add, Sums;
    MulLoaded(f, row, vec, n);
    ProductsBlock(n);
    LowIsLow(Products(n), 1, h);
    AddHolds(f, row, vec, x, s, LoadedProducts(f, row, vec, 4 * n), Products(n));
    SumsAdd(s, Products(n), h);
  }

  /** FMLA. */
  lemma MoreFused(f: Fpu, row: seq<real>, vec: seq<real>, x: V4, s: T4, m: multiset<nat>, n: nat, h: nat)
    requires Part(f, row, vec, x, s, m, h) && n + 4 <= |row| == |vec|
    ensures Part(f, row, vec, Fma(f, x, Load4(row, 4 * n), Load4(vec, 4 * n)), Fuseds(s, n), m + Block(n), h + 1)
  {
    hide Holds, Low, Leaves4, Block, Fma, Load4, Fuseds;
    FmaLoaded(f, row, vec, n, x, s);
    FusedsAdd(s, n, h);
  }

  /** What the even and the odd registers of a row hold. */
  function Evens(): multiset<nat> { Block(0) + Block(8) + Block(16) + Block(24) }
  function Odds(): multiset<nat> { Block(4) + Block(12) + Block(20) + Block(28) }

  lemma EvensAndOdds()
    ensures Evens() + Odds() == Range(COLUMNS)
  {
    hide Block, Range;
    DotProduct.EmptyRange();
    RangeBlock(0);
    RangeBlock(4);
    RangeBlock(8);
    RangeBlock(12);
    RangeBlock(16);
    RangeBlock(20);
    RangeBlock(24);
    RangeBlock(28);
    Interleaved(Block(0), Block(4), Block(8), Block(12), Block(16), Block(20), Block(24), Block(28));
  }

  lemma Interleaved(b0: multiset<nat>, b1: multiset<nat>, b2: multiset<nat>, b3: multiset<nat>,
                    b4: multiset<nat>, b5: multiset<nat>, b6: multiset<nat>, b7: multiset<nat>)
    ensures (b0 + b2 + b4 + b6) + (b1 + b3 + b5 + b7) == multiset{} + b0 + b1 + b2 + b3 + b4 + b5 + b6 + b7
  {
  }

  /** The addition that merges the two accumulators, and the two horizontal ones. */
  lemma MergedRow(f: Fpu, row: seq<real>, vec: seq<real>, x: V4, s: T4, y: V4, t: T4)
    requires Part(f, row, vec, x, s, Evens(), 4) && Part(f, row, vec, y, t, Odds(), 4)
    ensures IsSum(f, row, vec, COLUMNS, AddPairs(f, AddPairs(f, Add(f, x, y))).x0, 7)
  {
    hide Holds, Low, Leaves4, Add, AddPairs, Sums, Reduced, Evens, Odds, Range, Eval, Height, Leaves;
    AddHolds(f, row, vec, x, s, y, t);
    SumsAdd(s, t, 4);
    ReduceHolds(f, row, vec, Add(f, x, y), Sums(s, t));
    ReducedAdds(Sums(s, t), 5);
    EvensAndOdds();
    assert IsTreeOf(f, row, vec, COLUMNS, AddPairs(f, AddPairs(f, Add(f, x, y))).x0, 7, Reduced(Sums(s, t)));
  }

  // ---------- amd64 ----------

  /** The body of the label row: X8 to X15 are v, SI points to row i. */
  method RowAmd64(mat: array<real>, SI: int, v: V32, f: Fpu, ghost i: nat, ghost vec: seq<real>) returns (x: real)
    requires mat.Length == ROWS * COLUMNS && i < ROWS && SI == 128 * i && Hoisted(vec, v)
    ensures Computed(f, mat[..], vec, i, x, 7)
  {
    hide Part, Mul, Add, AddPairs, Load4, Block, Sums, Products, IsSum, Row;
    var mem := mat[..];
    ghost var row := Row(mem, i);
    RowLength(mem, i);
    LoadedFromRow(mem, i, 0);
    LoadedFromRow(mem, i, 1);
    LoadedFromRow(mem, i, 2);
    LoadedFromRow(mem, i, 3);
    LoadedFromRow(mem, i, 4);
    LoadedFromRow(mem, i, 5);
    LoadedFromRow(mem, i, 6);
    LoadedFromRow(mem, i, 7);
    FirstProducts(f, row, vec, 0);
    FirstProducts(f, row, vec, 4);
    var X0 := Mul(f, Load4(mem, SI), v.v0);
    var X1 := Mul(f, Load4(mem, SI + 16), v.v1);
    ghost var s, t := Products(0), Products(4);
    MoreProducts(f, row, vec, X0, s, Block(0), 8, 1);
    var X2 := Mul(f, Load4(mem, SI + 32), v.v2);
    X0, s := Add(f, X0, X2), Sums(s, Products(8));
    MoreProducts(f, row, vec, X1, t, Block(4), 12, 1);
    var X3 := Mul(f, Load4(mem, SI + 48), v.v3);
    X1, t := Add(f, X1, X3), Sums(t, Products(12));
    MoreProducts(f, row, vec, X0, s, Block(0) + Block(8), 16, 2);
    var X4 := Mul(f, Load4(mem, SI + 64), v.v4);
    X0, s := Add(f, X0, X4), Sums(s, Products(16));
    MoreProducts(f, row, vec, X1, t, Block(4) + Block(12), 20, 2);
    var X5 := Mul(f, Load4(mem, SI + 80), v.v5);
    X1, t := Add(f, X1, X5), Sums(t, Products(20));
    MoreProducts(f, row, vec, X0, s, Block(0) + Block(8) + Block(16), 24, 3);
    var X6 := Mul(f, Load4(mem, SI + 96), v.v6);
    X0, s := Add(f, X0, X6), Sums(s, Products(24));
    MoreProducts(f, row, vec, X1, t, Block(4) + Block(12) + Block(20), 28, 3);
    var X7 := Mul(f, Load4(mem, SI + 112), v.v7);
    X1, t := Add(f, X1, X7), Sums(t, Products(28));
    MergedRow(f, row, vec, X0, s, X1, t);
    X0 := Add(f, X0, X1);
    X0 := AddPairs(f, X0);
    X0 := AddPairs(f, X0);
    x := X0.x0;
  }

  lemma RowLength(mat: seq<real>, i: nat)
    requires |mat| == ROWS * COLUMNS && i < ROWS
    ensures |Row(mat, i)| == COLUMNS
  {
  }

  /** matvec_amd64.s: SI and AX are byte offsets into the matrix and the result, CX counts the rows that are left. */
  method ProductAmd64(dst: array<real>, mat: array<real>, vec: array<real>, f: Fpu)
    requires dst.Length == ROWS && mat.Length == ROWS * COLUMNS && vec.Length == COLUMNS
    requires dst != mat && dst != vec
    modifies dst
    ensures forall i | 0 <= i < ROWS :: Computed(f, mat[..], vec[..], i, dst[i], 7)
  {
    hide Computed;
    ghost var a, b := mat[..], vec[..];
    var v := V32(Load4(vec[..], 0), Load4(vec[..], 16), Load4(vec[..], 32), Load4(vec[..], 48),
                 Load4(vec[..], 64), Load4(vec[..], 80), Load4(vec[..], 96), Load4(vec[..], 112));
    var SI, AX, CX := 0, 0, 64;
    ghost var i := 0;
    while CX != 0
      invariant 0 <= i <= ROWS && CX == 64 - i && SI == 128 * i && AX == 4 * i
      invariant mat[..] == a && vec[..] == b
      invariant forall r | 0 <= r < i :: Computed(f, a, b, r, dst[r], 7)
    {
      var x := RowAmd64(mat, SI, v, f, i, b);
      dst[AX / 4] := x;
      SI := SI + 128;
      AX := AX + 4;
      CX := CX - 1;
      i := i + 1;
    }
  }

  // ---------- arm64 ----------

  /** The body of the label row: V16 to V23 are v, R1 points to row i and moves to the next one. */
  method RowArm64(mat: array<real>, P: int, v: V32, f: Fpu, ghost i: nat, ghost vec: seq<real>)
    returns (x: real, R1: int)
    requires mat.Length == ROWS * COLUMNS && i < ROWS && P == 128 * i && Hoisted(vec, v)
    ensures R1 == P + 128
    ensures Computed(f, mat[..], vec, i, x, 7)
  {
    hide Part, Fma, Add, AddPairs, Load4, Block, Sums, Fuseds, IsSum, Row;
    var mem := mat[..];
    ghost var row := Row(mem, i);
    RowLength(mem, i);
    LoadedFromRow(mem, i, 0);
    LoadedFromRow(mem, i, 1);
    LoadedFromRow(mem, i, 2);
    LoadedFromRow(mem, i, 3);
    LoadedFromRow(mem, i, 4);
    LoadedFromRow(mem, i, 5);
    LoadedFromRow(mem, i, 6);
    LoadedFromRow(mem, i, 7);
    var V24, V25 := ZERO_VECTOR, ZERO_VECTOR;
    ghost var s, t := ZERO_TREES, ZERO_TREES;
    ZeroPart(f, row, vec);
    R1 := P;
    var V0 := Load4(mem, R1);
    R1 := R1 + 16;
    var V1 := Load4(mem, R1);
    R1 := R1 + 16;
    var V2 := Load4(mem, R1);
    R1 := R1 + 16;
    var V3 := Load4(mem, R1);
    R1 := R1 + 16;
    var V4 := Load4(mem, R1);
    R1 := R1 + 16;
    var V5 := Load4(mem, R1);
    R1 := R1 + 16;
    var V6 := Load4(mem, R1);
    R1 := R1 + 16;
    var V7 := Load4(mem, R1);
    R1 := R1 + 16;
    NothingPlus(Block(0));
    NothingPlus(Block(4));
    MoreFused(f, row, vec, V24, s, multiset{}, 0, 0);
    V24, s := Fma(f, V24, V0, v.v0), Fuseds(s, 0);
    MoreFused(f, row, vec, V25, t, multiset{}, 4, 0);
    V25, t := Fma(f, V25, V1, v.v1), Fuseds(t, 4);
    MoreFused(f, row, vec, V24, s, Block(0), 8, 1);
    V24, s := Fma(f, V24, V2, v.v2), Fuseds(s, 8);
    MoreFused(f, row, vec, V25, t, Block(4), 12, 1);
    V25, t := Fma(f, V25, V3, v.v3), Fuseds(t, 12);
    MoreFused(f, row, vec, V24, s, Block(0) + Block(8), 16, 2);
    V24, s := Fma(f, V24, V4, v.v4), Fuseds(s, 16);
    MoreFused(f, row, vec, V25, t, Block(4) + Block(12), 20, 2);
    V25, t := Fma(f, V25, V5, v.v5), Fuseds(t, 20);
    MoreFused(f, row, vec, V24, s, Block(0) + Block(8) + Block(16), 24, 3);
    V24, s := Fma(f, V24, V6, v.v6), Fuseds(s, 24);
    MoreFused(f, row, vec, V25, t, Block(4) + Block(12) + Block(20), 28, 3);
    V25, t := Fma(f, V25, V7, v.v7), Fuseds(t, 28);
    MergedRow(f, row, vec, V24, s, V25, t);
    V24 := Add(f, V24, V25);
    V24 := AddPairs(f, V24);
    V24 := AddPairs(f, V24);
    x := V24.x0;
  }

  lemma NothingPlus(m: multiset<nat>)
    ensures multiset{} + m == m
  {
  }

  lemma ZeroPart(f: Fpu, row: seq<real>, vec: seq<real>)
    ensures Part(f, row, vec, ZERO_VECTOR, ZERO_TREES, multiset{}, 0)
  {
    ZeroHolds(f, row, vec);
  }

  /** matvec_arm64.s: R1 and R0 are byte offsets into the matrix and the result, R3 counts the rows that are left. */
  method ProductArm64(dst: array<real>, mat: array<real>, vec: array<real>, f: Fpu)
    requires dst.Length == ROWS && mat.Length == ROWS * COLUMNS && vec.Length == COLUMNS
    requires dst != mat && dst != vec
    modifies dst
    ensures forall i | 0 <= i < ROWS :: Computed(f, mat[..], vec[..], i, dst[i], 7)
  {
    hide Computed;
    ghost var a, b := mat[..], vec[..];
    var v := V32(Load4(vec[..], 0), Load4(vec[..], 16), Load4(vec[..], 32), Load4(vec[..], 48),
                 Load4(vec[..], 64), Load4(vec[..], 80), Load4(vec[..], 96), Load4(vec[..], 112));
    var R0, R1, R3 := 0, 0, 64;
    ghost var i := 0;
    while R3 != 0
      invariant 0 <= i <= ROWS && R3 == 64 - i && R1 == 128 * i && R0 == 4 * i
      invariant mat[..] == a && vec[..] == b
      invariant forall r | 0 <= r < i :: Computed(f, a, b, r, dst[r], 7)
    {
      var x;
      x, R1 := RowArm64(mat, R1, v, f, i, b);
      dst[R0 / 4] := x;
      R0 := R0 + 4;
      R3 := R3 - 1;
      i := i + 1;
    }
  }

  // ---------- MatVecMul64x32 ----------

  /** On every architecture the result is exact on exact arithmetic, and within the standard error bound otherwise;
      the matrix and the vector are as before. */
  method MatVecMul64x32(arch: DotProduct.Arch, dst: array<real>, mat: array<real>, vec: array<real>, f: Fpu,
                        fuses: (nat, nat) -> bool)
    requires dst.Length == ROWS && mat.Length == ROWS * COLUMNS && vec.Length == COLUMNS
    requires dst != mat && dst != vec
    modifies dst
    ensures mat[..] == old(mat[..]) && vec[..] == old(vec[..])
    ensures IsExact(f) ==> forall i | 0 <= i < ROWS :: dst[i] == Dot(Row(mat[..], i), vec[..], COLUMNS)
    ensures forall u, i | Standard(f, u) && 0 <= i < ROWS ::
              Abs(dst[i] - Dot(Row(mat[..], i), vec[..], COLUMNS))
              <= (Pow(1.0 + u, if arch == DotProduct.Generic then 33 else 7) - 1.0)
                 * AbsDot(Row(mat[..], i), vec[..], COLUMNS)
  {
    hide IsSum, Row, Dot, AbsDot, Pow, Abs, IsExact, Standard;
    match arch {
      case Amd64 => ProductAmd64(dst, mat, vec, f);
      case Arm64 => ProductArm64(dst, mat, vec, f);
      case Generic => ProductGeneric(dst, mat, vec, f, fuses);
    }
    ghost var a, b, k := mat[..], vec[..], if arch == DotProduct.Generic then 33 else 7;
    assert forall i | 0 <= i < ROWS :: Computed(f, a, b, i, dst[i], k);
    if IsExact(f) {
      forall i | 0 <= i < ROWS ensures dst[i] == Dot(Row(a, i), b, COLUMNS) {
        SumIsExact(f, Row(a, i), b, COLUMNS, dst[i], k);
      }
    }
    forall u, i | Standard(f, u) && 0 <= i < ROWS
      ensures Abs(dst[i] - Dot(Row(a, i), b, COLUMNS))
                <= (Pow(1.0 + u, k) - 1.0) * AbsDot(Row(a, i), b, COLUMNS)
    {
      SumIsAccurate(f, u, Row(a, i), b, COLUMNS, dst[i], k);
    }
  }
}
