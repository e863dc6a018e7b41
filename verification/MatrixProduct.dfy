/** Matrix products on the CPU (src/backend/cpu/matmul_kernel.cpp, gemm_epilogue.cpp, src/ops/gemm.cpp): strided, blocked,
    packed and fused loops against one reference sum. Numbers are exact. */
module MatrixProduct {
  import opened Prelude
  import opened Arithmetic
  import opened TensorIndexing
  import opened Broadcasting

  datatype Matrix = Matrix(data: seq<real>, rows: nat, columns: nat, rowStride: nat, columnStride: nat)

  ghost predicate InData(m: Matrix, i: nat, j: nat) {
    i * m.rowStride + j * m.columnStride < |m.data|
  }

  ghost predicate MatrixOk(m: Matrix) {
    forall i: nat, j: nat :: i < m.rows && j < m.columns ==> InData(m, i, j)
  }

  function At(m: Matrix, i: nat, j: nat): real
    requires MatrixOk(m) && i < m.rows && j < m.columns
  {
    assert InData(m, i, j);
    m.data[i * m.rowStride + j * m.columnStride]
  }

  /** Sum of the first `n` products of row `r` and column `c`. */
  function Dot(a: Matrix, b: Matrix, r: nat, c: nat, n: nat): real
    requires MatrixOk(a) && MatrixOk(b) && r < a.rows && c < b.columns && n <= a.columns && n <= b.rows
  {
    if n == 0 then 0.0 else Dot(a, b, r, c, n - 1) + At(a, r, n - 1) * At(b, n - 1, c)
  }

  ghost predicate Conform(a: Matrix, b: Matrix) {
    MatrixOk(a) && MatrixOk(b) && a.columns == b.rows
  }

  /** `x` is the sum of the products of row `r` with column `c`, in terms of the stored elements. */
  ghost predicate IsDot(a: Matrix, b: Matrix, r: nat, c: nat, x: real) {
    exists terms: seq<real> :: SumsTo(terms, x) && |terms| == a.columns && forall k: nat :: k < a.columns ==> ProductAt(a, b, r, c, k, terms[k])
  }

  ghost predicate ProductAt(a: Matrix, b: Matrix, r: nat, c: nat, k: nat, term: real) {
    var i, j := r * a.rowStride + k * a.columnStride, k * b.rowStride + c * b.columnStride;
    i < |a.data| && j < |b.data| && term == a.data[i] * b.data[j]
  }

  /** Cell `(r, c)` of a row-major output holds that sum. */
  ghost predicate SumAt(out: seq<real>, a: Matrix, b: Matrix, r: nat, c: nat) {
    r * b.columns + c < |out| && IsDot(a, b, r, c, out[r * b.columns + c])
  }

  lemma DotMeans(a: Matrix, b: Matrix, r: nat, c: nat)
    requires Conform(a, b) && r < a.rows && c < b.columns
    ensures IsDot(a, b, r, c, Dot(a, b, r, c, a.columns))
  {
    var terms := seq(a.columns, k requires 0 <= k < a.columns => At(a, r, k) * At(b, k, c));
    var partial := seq(a.columns + 1, n requires 0 <= n <= a.columns => Dot(a, b, r, c, n));
    hide At, MatrixOk;
    assert IsRunningSum(terms, partial);
    forall k: nat | k < a.columns ensures ProductAt(a, b, r, c, k, terms[k]) {
      TermStored(a, b, r, c, k);
    }
  }

  lemma TermStored(a: Matrix, b: Matrix, r: nat, c: nat, k: nat)
    requires Conform(a, b) && r < a.rows && c < b.columns && k < a.columns
    ensures ProductAt(a, b, r, c, k, At(a, r, k) * At(b, k, c))
  {
    assert InData(a, r, k) && InData(b, k, c);
    hide MatrixOk;
  }

  // ---- Epilogues ----

  /** alpha * sum + beta * bias, then optionally ReLU; the bias is addressed by its own two strides. */
  datatype Epilogue = Epilogue(bias: Option<seq<real>>, rowStride: nat, columnStride: nat, alpha: real, beta: real, relu: bool)

  const Identity := Epilogue(None, 0, 0, 1.0, 1.0, false)

  function Relu(v: real): real {
    if v < 0.0 then 0.0 else v
  }

  /** The bias element of cell `(r, c)` lies inside the bias storage. */
  ghost predicate InBias(e: Epilogue, r: nat, c: nat) {
    e.bias.Some? ==> r * e.rowStride + c * e.columnStride < |e.bias.value|
  }

  ghost predicate BiasCovers(e: Epilogue, rows: nat, columns: nat) {
    forall r: nat, c: nat | r < rows && c < columns :: InBias(e, r, c)
  }

  /** Conforming operands, and a bias for every cell of the product. */
  ghost predicate Ready(a: Matrix, b: Matrix, e: Epilogue) {
    Conform(a, b) && BiasCovers(e, a.rows, b.columns)
  }

  lemma PlainReady(a: Matrix, b: Matrix)
    requires Conform(a, b)
    ensures Ready(a, b, Identity)
  {
  }

  lemma ReadyConforms(a: Matrix, b: Matrix, e: Epilogue)
    requires Ready(a, b, e)
    ensures Conform(a, b)
  {
  }

  lemma ReadyAt(a: Matrix, b: Matrix, e: Epilogue, r: nat, c: nat)
    requires Ready(a, b, e) && r < a.rows && c < b.columns
    ensures Conform(a, b) && InBias(e, r, c)
  {
  }

  function Finish(e: Epilogue, v: real, r: nat, c: nat): real
    requires InBias(e, r, c)
  {
    var value := if e.bias.Some? then e.alpha * v + e.beta * e.bias.value[r * e.rowStride + c * e.columnStride]
                 else if e.alpha != 1.0 || e.relu then e.alpha * v else v;
    if e.relu then Relu(value) else value
  }

  lemma IdentityKeeps(v: real, r: nat, c: nat)
    ensures InBias(Identity, r, c) && Finish(Identity, v, r, c) == v
  {
  }

  /** What a cell holds after `n` products: the sum so far, finished once it is complete. */
  function Target(a: Matrix, b: Matrix, e: Epilogue, r: nat, c: nat, n: nat): real
    requires Ready(a, b, e) && r < a.rows && c < b.columns && n <= a.columns
  {
    assert InBias(e, r, c);
    if n == a.columns then Finish(e, Dot(a, b, r, c, n), r, c) else Dot(a, b, r, c, n)
  }

  // ---- The output ----

  lemma CellInRange(rows: nat, columns: nat, r: nat, c: nat)
    requires r < rows && c < columns
    ensures Place(r, columns, c) < rows * columns
  {
    MulMonotone(r + 1, rows, columns);
    MulMonotone(r, r, columns);
  }

  lemma CellsDiffer(columns: nat, r: nat, c: nat, r': nat, c': nat)
    requires c < columns && c' < columns && Place(r, columns, c) == Place(r', columns, c')
    ensures r == r' && c == c'
  {
    PlaceDigits(r, columns, c);
    PlaceDigits(r', columns, c');
  }

  /** The cells of a block hold their targets after `n` products. */
  ghost predicate Cells(out: seq<real>, a: Matrix, b: Matrix, e: Epilogue, r0: nat, r1: nat, c0: nat, c1: nat, n: nat)
    requires Ready(a, b, e) && |out| == a.rows * b.columns && n <= a.columns && r1 <= a.rows && c1 <= b.columns
  {
    forall r: nat, c: nat | r0 <= r < r1 && c0 <= c < c1 :: CellIs(out, a, b, e, r, c, n)
  }

  ghost predicate CellIs(out: seq<real>, a: Matrix, b: Matrix, e: Epilogue, r: nat, c: nat, n: nat)
    requires Ready(a, b, e) && |out| == a.rows * b.columns && r < a.rows && c < b.columns && n <= a.columns
  {
    Place(r, b.columns, c) < |out| && out[Place(r, b.columns, c)] == Target(a, b, e, r, c, n)
  }

  /** Only cells of the block may differ. */
  ghost predicate Outside(before: seq<real>, after: seq<real>, columns: nat, r0: nat, r1: nat, c0: nat, c1: nat) {
    && |after| == |before|
    && forall r: nat, c: nat | c < columns && Place(r, columns, c) < |before| && !(r0 <= r < r1 && c0 <= c < c1) ::
         after[Place(r, columns, c)] == before[Place(r, columns, c)]
  }

  lemma OutsideTransitive(x: seq<real>, y: seq<real>, z: seq<real>, columns: nat, r0: nat, r1: nat, c0: nat, c1: nat)
    requires Outside(x, y, columns, r0, r1, c0, c1) && Outside(y, z, columns, r0, r1, c0, c1)
    ensures Outside(x, z, columns, r0, r1, c0, c1)
  {
    hide Place;
  }

  lemma OutsideWider(x: seq<real>, y: seq<real>, columns: nat, r0: nat, r1: nat, c0: nat, c1: nat, R0: nat, R1: nat, C0: nat, C1: nat)
    requires Outside(x, y, columns, r0, r1, c0, c1) && R0 <= r0 && r1 <= R1 && C0 <= c0 && c1 <= C1
    ensures Outside(x, y, columns, R0, R1, C0, C1)
  {
    hide Place;
  }

  /** A finished block survives changes elsewhere. */
  lemma CellsKept(x: seq<real>, y: seq<real>, a: Matrix, b: Matrix, e: Epilogue, r0: nat, r1: nat, c0: nat, c1: nat, n: nat,
                  R0: nat, R1: nat, C0: nat, C1: nat)
    requires Ready(a, b, e) && |x| == a.rows * b.columns && n <= a.columns && r1 <= a.rows && c1 <= b.columns
    requires Cells(x, a, b, e, r0, r1, c0, c1, n) && Outside(x, y, b.columns, R0, R1, C0, C1) && (r1 <= R0 || R1 <= r0 || c1 <= C0 || C1 <= c0)
    ensures Cells(y, a, b, e, r0, r1, c0, c1, n)
  {
    hide Place, Target, Conform, Ready;
    forall r: nat, c: nat | r0 <= r < r1 && c0 <= c < c1 ensures CellIs(y, a, b, e, r, c, n) {
      assert CellIs(x, a, b, e, r, c, n);
    }
  }

  lemma SetCell(x: seq<real>, a: Matrix, b: Matrix, e: Epilogue, r: nat, c: nat, n: nat, v: real)
    requires Ready(a, b, e) && |x| == a.rows * b.columns && r < a.rows && c < b.columns && n <= a.columns && v == Target(a, b, e, r, c, n)
    ensures Place(r, b.columns, c) < |x|
    ensures CellIs(x[Place(r, b.columns, c) := v], a, b, e, r, c, n)
    ensures Outside(x, x[Place(r, b.columns, c) := v], b.columns, r, r + 1, c, c + 1)
  {
    CellInRange(a.rows, b.columns, r, c);
    hide Place, Target, Conform, Ready;
    var y := x[Place(r, b.columns, c) := v];
    forall r': nat, c': nat | c' < b.columns && Place(r', b.columns, c') < |x| && !(r <= r' < r + 1 && c <= c' < c + 1)
      ensures y[Place(r', b.columns, c')] == x[Place(r', b.columns, c')]
    {
      if Place(r', b.columns, c') == Place(r, b.columns, c) {
        CellsDiffer(b.columns, r, c, r', c');
      }
    }
  }

  lemma NextProduct(a: Matrix, b: Matrix, e: Epilogue, r: nat, c: nat, n: nat)
    requires Ready(a, b, e) && r < a.rows && c < b.columns && n < a.columns
    ensures Target(a, b, e, r, c, n) == Dot(a, b, r, c, n)
    ensures Dot(a, b, r, c, n + 1) == Dot(a, b, r, c, n) + At(a, r, n) * At(b, n, c)
    ensures Target(a, b, Identity, r, c, n + 1) == Dot(a, b, r, c, n + 1)
  {
    IdentityKeeps(Dot(a, b, r, c, n + 1), r, c);
  }

  // ---- Row kernels ----

  /** Adds one product to every cell of a row segment. */
  method AddProducts(out: array<real>, a: Matrix, b: Matrix, r: nat, c0: nat, c1: nat, k: nat)
    requires Ready(a, b, Identity) && out.Length == a.rows * b.columns && r < a.rows && c0 <= c1 <= b.columns && k < a.columns
    requires Cells(out[..], a, b, Identity, r, r + 1, c0, c1, k)
    modifies out
    ensures Cells(out[..], a, b, Identity, r, r + 1, c0, c1, k + 1) && Outside(old(out[..]), out[..], b.columns, r, r + 1, c0, c1)
  {
    hide Conform, Ready, Place, Target, Dot, At, Outside, CellIs;
    ghost var first := out[..];
    Unchanged(first, b.columns, r, r + 1, c0, c1);
    ReadyConforms(a, b, Identity);
    var x := Read(a, b, r, k);
    for c := c0 to c1
      invariant Cells(out[..], a, b, Identity, r, r + 1, c0, c, k + 1) && Cells(out[..], a, b, Identity, r, r + 1, c, c1, k)
      invariant Outside(first, out[..], b.columns, r, r + 1, c0, c1)
    {
      ghost var before := out[..];
      assert CellIs(out[..], a, b, Identity, r, c, k);
      CellAt(out[..], a, b, Identity, r, c, k);
      NextProduct(a, b, Identity, r, c, k);
      ConformB(a, b, k, c);
      var v := out[Index(r, b.columns, c)] + x * At(b, k, c);
      SetCell(before, a, b, Identity, r, c, k + 1, v);
      out[Index(r, b.columns, c)] := v;
      RowAdvanced(first, before, out[..], a, b, Identity, r, c0, c, c1, k, k + 1);
    }
  }

  function Index(r: nat, columns: nat, c: nat): (i: nat)
    ensures i == Place(r, columns, c)
  {
    r * columns + c
  }

  /** An element of the left operand. */
  method Read(a: Matrix, b: Matrix, r: nat, k: nat) returns (x: real)
    requires Conform(a, b) && r < a.rows && k < a.columns
    ensures MatrixOk(a) && x == At(a, r, k)
  {
    x := At(a, r, k);
  }

  lemma ConformB(a: Matrix, b: Matrix, k: nat, c: nat)
    requires Conform(a, b) && k < a.columns
    ensures MatrixOk(b) && k < b.rows && MatrixOk(a)
  {
  }

  lemma Unchanged(x: seq<real>, columns: nat, r0: nat, r1: nat, c0: nat, c1: nat)
    ensures Outside(x, x, columns, r0, r1, c0, c1)
  {
  }

  lemma CellAt(out: seq<real>, a: Matrix, b: Matrix, e: Epilogue, r: nat, c: nat, n: nat)
    requires Ready(a, b, e) && |out| == a.rows * b.columns && r < a.rows && c < b.columns && n <= a.columns && CellIs(out, a, b, e, r, c, n)
    ensures Place(r, b.columns, c) < |out| && out[Place(r, b.columns, c)] == Target(a, b, e, r, c, n)
  {
  }

  /** One cell of a row segment moved from `n` to `m` products. */
  lemma RowAdvanced(first: seq<real>, before: seq<real>, after: seq<real>, a: Matrix, b: Matrix, e: Epilogue, r: nat, c0: nat, c: nat, c1: nat, n: nat, m: nat)
    requires Ready(a, b, e) && |before| == |after| == a.rows * b.columns && r < a.rows && c0 <= c < c1 <= b.columns && n <= a.columns && m <= a.columns
    requires Cells(before, a, b, e, r, r + 1, c0, c, m) && Cells(before, a, b, e, r, r + 1, c, c1, n)
    requires CellIs(after, a, b, e, r, c, m) && Outside(before, after, b.columns, r, r + 1, c, c + 1) && Outside(first, before, b.columns, r, r + 1, c0, c1)
    ensures Cells(after, a, b, e, r, r + 1, c0, c + 1, m) && Cells(after, a, b, e, r, r + 1, c + 1, c1, n)
    ensures Outside(first, after, b.columns, r, r + 1, c0, c1)
  {
    hide Conform, Ready, Outside, CellIs;
    CellsKept(before, after, a, b, e, r, r + 1, c0, c, m, r, r + 1, c, c + 1);
    assert Cells(before, a, b, e, r, r + 1, c + 1, c1, n);
    CellsKept(before, after, a, b, e, r, r + 1, c + 1, c1, n, r, r + 1, c, c + 1);
    OutsideWider(before, after, b.columns, r, r + 1, c, c + 1, r, r + 1, c0, c1);
    OutsideTransitive(first, before, after, b.columns, r, r + 1, c0, c1);
  }

  /** The blocked kernel: products outermost, columns innermost. */
  method RowByProducts(out: array<real>, a: Matrix, b: Matrix, r: nat, c0: nat, c1: nat, k0: nat, k1: nat)
    requires Ready(a, b, Identity) && out.Length == a.rows * b.columns && r < a.rows && c0 <= c1 <= b.columns && k0 <= k1 <= a.columns
    requires Cells(out[..], a, b, Identity, r, r + 1, c0, c1, k0)
    modifies out
    ensures Cells(out[..], a, b, Identity, r, r + 1, c0, c1, k1) && Outside(old(out[..]), out[..], b.columns, r, r + 1, c0, c1)
  {
    hide Conform, Ready, Cells, Outside;
    ghost var first := out[..];
    Unchanged(first, b.columns, r, r + 1, c0, c1);
    for k := k0 to k1
      invariant Cells(out[..], a, b, Identity, r, r + 1, c0, c1, k) && Outside(first, out[..], b.columns, r, r + 1, c0, c1)
    {
      ghost var before := out[..];
      AddProducts(out, a, b, r, c0, c1, k);
      OutsideTransitive(first, before, out[..], b.columns, r, r + 1, c0, c1);
    }
  }

  /** The sum of one cell continued over products `k0` to `k1`. */
  method ContinueSum(a: Matrix, b: Matrix, r: nat, c: nat, k0: nat, k1: nat, start: real) returns (sum: real)
    requires Conform(a, b) && r < a.rows && c < b.columns && k0 <= k1 <= a.columns && start == Dot(a, b, r, c, k0)
    ensures sum == Dot(a, b, r, c, k1)
  {
    hide Dot, At, MatrixOk;
    sum := start;
    for k := k0 to k1
      invariant sum == Dot(a, b, r, c, k)
    {
      NextProduct(a, b, Identity, r, c, k);
      sum := sum + At(a, r, k) * At(b, k, c);
    }
  }

  /** The packed kernel: one running sum per cell, finished as soon as it is complete. */
  method RowByCells(out: array<real>, a: Matrix, b: Matrix, e: Epilogue, r: nat, c0: nat, c1: nat, k0: nat, k1: nat)
    requires Ready(a, b, e) && out.Length == a.rows * b.columns && r < a.rows && c0 <= c1 <= b.columns && k0 < k1 <= a.columns
    requires Cells(out[..], a, b, e, r, r + 1, c0, c1, k0)
    modifies out
    ensures Cells(out[..], a, b, e, r, r + 1, c0, c1, k1) && Outside(old(out[..]), out[..], b.columns, r, r + 1, c0, c1)
  {
    hide Conform, Ready, Place, Dot, At, Outside, CellIs, Finish;
    ghost var first := out[..];
    Unchanged(first, b.columns, r, r + 1, c0, c1);
    for c := c0 to c1
      invariant Cells(out[..], a, b, e, r, r + 1, c0, c, k1) && Cells(out[..], a, b, e, r, r + 1, c, c1, k0)
      invariant Outside(first, out[..], b.columns, r, r + 1, c0, c1)
    {
      ghost var before := out[..];
      assert CellIs(out[..], a, b, e, r, c, k0);
      CellAt(out[..], a, b, e, r, c, k0);
      ReadyAt(a, b, e, r, c);
      var sum := ContinueSum(a, b, r, c, k0, k1, out[Index(r, b.columns, c)]);
      if k1 == a.columns {
        sum := Finish(e, sum, r, c);
      }
      SetCell(before, a, b, e, r, c, k1, sum);
      out[Index(r, b.columns, c)] := sum;
      RowAdvanced(first, before, out[..], a, b, e, r, c0, c, c1, k0, k1);
    }
  }

  // ---- Block loops ----

  /** One block of rows, columns and products. */
  method BlockStep(out: array<real>, a: Matrix, b: Matrix, e: Epilogue, packed: bool, r0: nat, r1: nat, c0: nat, c1: nat, k0: nat, k1: nat)
    requires Ready(a, b, e) && out.Length == a.rows * b.columns && r0 <= r1 <= a.rows && c0 <= c1 <= b.columns && k0 < k1 <= a.columns
    requires Cells(out[..], a, b, e, r0, r1, c0, c1, k0) && (!packed ==> e == Identity)
    modifies out
    ensures Cells(out[..], a, b, e, r0, r1, c0, c1, k1) && Outside(old(out[..]), out[..], b.columns, r0, r1, c0, c1)
  {
    hide Conform, Ready, Outside, CellIs, Identity;
    ghost var first := out[..];
    Unchanged(first, b.columns, r0, r1, c0, c1);
    for row := r0 to r1
      invariant Cells(out[..], a, b, e, r0, row, c0, c1, k1) && Cells(out[..], a, b, e, row, r1, c0, c1, k0)
      invariant Outside(first, out[..], b.columns, r0, r1, c0, c1)
    {
      ghost var before := out[..];
      if packed {
        RowByCells(out, a, b, e, row, c0, c1, k0, k1);
      } else {
        RowByProducts(out, a, b, row, c0, c1, k0, k1);
      }
      CellsKept(before, out[..], a, b, e, r0, row, c0, c1, k1, row, row + 1, c0, c1);
      assert Cells(before, a, b, e, row + 1, r1, c0, c1, k0);
      CellsKept(before, out[..], a, b, e, row + 1, r1, c0, c1, k0, row, row + 1, c0, c1);
      OutsideWider(before, out[..], b.columns, row, row + 1, c0, c1, r0, r1, c0, c1);
      OutsideTransitive(first, before, out[..], b.columns, r0, r1, c0, c1);
    }
  }

  function AtMost(x: nat, limit: nat): (r: nat)
    ensures r <= limit && r <= x && (r == x || r == limit)
  {
    if x < limit then x else limit
  }

  /** All products of one block of rows and columns. */
  method BlockColumn(out: array<real>, a: Matrix, b: Matrix, e: Epilogue, packed: bool, r0: nat, r1: nat, c0: nat, c1: nat, step: nat)
    requires Ready(a, b, e) && out.Length == a.rows * b.columns && r0 <= r1 <= a.rows && c0 <= c1 <= b.columns && step > 0
    requires Cells(out[..], a, b, e, r0, r1, c0, c1, 0) && (!packed ==> e == Identity)
    modifies out
    ensures Cells(out[..], a, b, e, r0, r1, c0, c1, a.columns) && Outside(old(out[..]), out[..], b.columns, r0, r1, c0, c1)
  {
    hide Conform, Ready, Cells, Outside, Identity;
    ghost var first := out[..];
    Unchanged(first, b.columns, r0, r1, c0, c1);
    var k := 0;
    while k < a.columns
      invariant k <= a.columns && Cells(out[..], a, b, e, r0, r1, c0, c1, k) && Outside(first, out[..], b.columns, r0, r1, c0, c1)
    {
      var end := AtMost(k + step, a.columns);
      ghost var before := out[..];
      BlockStep(out, a, b, e, packed, r0, r1, c0, c1, k, end);
      OutsideTransitive(first, before, out[..], b.columns, r0, r1, c0, c1);
      k := end;
    }
  }

  /** All columns of one block of rows. */
  method BlockRow(out: array<real>, a: Matrix, b: Matrix, e: Epilogue, packed: bool, r0: nat, r1: nat, columnStep: nat, innerStep: nat)
    requires Ready(a, b, e) && out.Length == a.rows * b.columns && r0 <= r1 <= a.rows && columnStep > 0 && innerStep > 0
    requires Cells(out[..], a, b, e, r0, r1, 0, b.columns, 0) && (!packed ==> e == Identity)
    modifies out
    ensures Cells(out[..], a, b, e, r0, r1, 0, b.columns, a.columns) && Outside(old(out[..]), out[..], b.columns, r0, r1, 0, b.columns)
  {
    hide Conform, Ready, Outside, CellIs, Identity;
    ghost var first := out[..];
    Unchanged(first, b.columns, r0, r1, 0, b.columns);
    var c := 0;
    while c < b.columns
      invariant c <= b.columns && Outside(first, out[..], b.columns, r0, r1, 0, b.columns)
      invariant Cells(out[..], a, b, e, r0, r1, 0, c, a.columns) && Cells(out[..], a, b, e, r0, r1, c, b.columns, 0)
    {
      var end := AtMost(c + columnStep, b.columns);
      ghost var before := out[..];
      assert Cells(before, a, b, e, r0, r1, c, end, 0) && Cells(before, a, b, e, r0, r1, end, b.columns, 0);
      BlockColumn(out, a, b, e, packed, r0, r1, c, end, innerStep);
      CellsKept(before, out[..], a, b, e, r0, r1, 0, c, a.columns, r0, r1, c, end);
      CellsKept(before, out[..], a, b, e, r0, r1, end, b.columns, 0, r0, r1, c, end);
      OutsideWider(before, out[..], b.columns, r0, r1, c, end, r0, r1, 0, b.columns);
      OutsideTransitive(first, before, out[..], b.columns, r0, r1, 0, b.columns);
      c := end;
    }
  }

  /** All blocks, for any block sizes and any tails. */
  method BlockLoops(out: array<real>, a: Matrix, b: Matrix, e: Epilogue, packed: bool, rowStep: nat, columnStep: nat, innerStep: nat)
    requires Ready(a, b, e) && out.Length == a.rows * b.columns && rowStep > 0 && columnStep > 0 && innerStep > 0
    requires Cells(out[..], a, b, e, 0, a.rows, 0, b.columns, 0) && (!packed ==> e == Identity)
    modifies out
    ensures Cells(out[..], a, b, e, 0, a.rows, 0, b.columns, a.columns)
  {
    hide Conform, Ready, Outside, CellIs, Identity;
    var r := 0;
    while r < a.rows
      invariant r <= a.rows && Cells(out[..], a, b, e, 0, r, 0, b.columns, a.columns) && Cells(out[..], a, b, e, r, a.rows, 0, b.columns, 0)
    {
      var end := AtMost(r + rowStep, a.rows);
      ghost var before := out[..];
      assert Cells(before, a, b, e, r, end, 0, b.columns, 0) && Cells(before, a, b, e, end, a.rows, 0, b.columns, 0);
      BlockRow(out, a, b, e, packed, r, end, columnStep, innerStep);
      CellsKept(before, out[..], a, b, e, 0, r, 0, b.columns, a.columns, r, end, 0, b.columns);
      CellsKept(before, out[..], a, b, e, end, a.rows, 0, b.columns, 0, r, end, 0, b.columns);
      r := end;
    }
  }

  method FillZero(out: array<real>)
    modifies out
    ensures forall i :: 0 <= i < out.Length ==> out[i] == 0.0
  {
    for i := 0 to out.Length
      invariant forall x :: 0 <= x < i ==> out[x] == 0.0
    {
      out[i] := 0.0;
    }
  }

  lemma ZeroCells(out: seq<real>, a: Matrix, b: Matrix, e: Epilogue)
    requires Ready(a, b, e) && |out| == a.rows * b.columns && (forall i :: 0 <= i < |out| ==> out[i] == 0.0) && (a.columns > 0 || e == Identity)
    ensures Cells(out, a, b, e, 0, a.rows, 0, b.columns, 0)
  {
    forall r: nat, c: nat | r < a.rows && c < b.columns ensures CellIs(out, a, b, e, r, c, 0) {
      CellInRange(a.rows, b.columns, r, c);
      IdentityKeeps(0.0, r, c);
    }
  }

  /** Every cell is the complete sum, finished by the epilogue. */
  ghost predicate IsProduct(out: seq<real>, a: Matrix, b: Matrix, e: Epilogue)
    requires Ready(a, b, e)
  {
    && |out| == a.rows * b.columns
    && forall r: nat, c: nat | r < a.rows && c < b.columns ::
         Place(r, b.columns, c) < |out| && out[Place(r, b.columns, c)] == Finish(e, Dot(a, b, r, c, a.columns), r, c)
  }

  lemma CellsAreProduct(out: seq<real>, a: Matrix, b: Matrix, e: Epilogue)
    requires Ready(a, b, e) && |out| == a.rows * b.columns && Cells(out, a, b, e, 0, a.rows, 0, b.columns, a.columns)
    ensures IsProduct(out, a, b, e)
  {
    hide Dot, Finish, Place, MatrixOk;
    forall r: nat, c: nat | r < a.rows && c < b.columns
      ensures Place(r, b.columns, c) < |out| && out[Place(r, b.columns, c)] == Finish(e, Dot(a, b, r, c, a.columns), r, c)
    {
      assert CellIs(out, a, b, e, r, c, a.columns);
    }
  }

  // ---- The entry points ----

  /** matmul_blocked: for every block size the plain product. */
  method Blocked(out: array<real>, a: Matrix, b: Matrix, rowStep: nat, columnStep: nat, innerStep: nat) returns (ok: bool)
    requires Conform(a, b) && out.Length == a.rows * b.columns
    modifies out
    ensures ok <==> rowStep > 0 && columnStep > 0 && innerStep > 0
    ensures ok ==> IsProduct(out[..], a, b, Identity)
    ensures ok ==> forall r: nat, c: nat | r < a.rows && c < b.columns :: SumAt(out[..], a, b, r, c)
  {
    hide Conform, Ready, Cells, Identity, IsProduct, IsDot, SumAt;
    if rowStep == 0 || columnStep == 0 || innerStep == 0 {
      return false;
    }
    PlainReady(a, b);
    FillZero(out);
    ZeroCells(out[..], a, b, Identity);
    BlockLoops(out, a, b, Identity, false, rowStep, columnStep, innerStep);
    CellsAreProduct(out[..], a, b, Identity);
    ProductMeans(out[..], a, b);
    ok := true;
  }

  /** Every cell of a plain product is the sum of its stored products. */
  lemma ProductMeans(out: seq<real>, a: Matrix, b: Matrix)
    requires Conform(a, b) && Ready(a, b, Identity) && IsProduct(out, a, b, Identity)
    ensures forall r: nat, c: nat | r < a.rows && c < b.columns :: SumAt(out, a, b, r, c)
  {
    hide Conform, Ready, IsProduct, IsDot, Dot, MatrixOk;
    forall r: nat, c: nat | r < a.rows && c < b.columns ensures SumAt(out, a, b, r, c) {
      PlainCell(out, a, b, r, c);
      DotMeans(a, b, r, c);
    }
  }

  /** matmul_strided: one sum per cell. */
  method Strided(out: array<real>, a: Matrix, b: Matrix)
    requires Conform(a, b) && out.Length == a.rows * b.columns
    modifies out
    ensures IsProduct(out[..], a, b, Identity)
    ensures forall r: nat, c: nat | r < a.rows && c < b.columns :: SumAt(out[..], a, b, r, c)
  {
    hide Conform, Ready, Dot, Place, Outside, CellIs, IsProduct, IsDot, SumAt;
    PlainReady(a, b);
    for r := 0 to a.rows
      invariant Cells(out[..], a, b, Identity, 0, r, 0, b.columns, a.columns)
    {
      for c := 0 to b.columns
        invariant Cells(out[..], a, b, Identity, 0, r, 0, b.columns, a.columns) && Cells(out[..], a, b, Identity, r, r + 1, 0, c, a.columns)
      {
        ghost var before := out[..];
        DotNone(a, b, r, c);
        var sum := ContinueSum(a, b, r, c, 0, a.columns, 0.0);
        IdentityKeeps(sum, r, c);
        SetCell(before, a, b, Identity, r, c, a.columns, sum);
        out[Index(r, b.columns, c)] := sum;
        CellsKept(before, out[..], a, b, Identity, 0, r, 0, b.columns, a.columns, r, r + 1, c, c + 1);
        CellsKept(before, out[..], a, b, Identity, r, r + 1, 0, c, a.columns, r, r + 1, c, c + 1);
        OneMoreCell(out[..], a, b, Identity, r, c);
      }
      OneMoreRow(out[..], a, b, Identity, r);
    }
    CellsAreProduct(out[..], a, b, Identity);
    ProductMeans(out[..], a, b);
  }

  lemma DotNone(a: Matrix, b: Matrix, r: nat, c: nat)
    requires Conform(a, b) && r < a.rows && c < b.columns
    ensures Dot(a, b, r, c, 0) == 0.0
  {
  }

  lemma OneMoreCell(out: seq<real>, a: Matrix, b: Matrix, e: Epilogue, r: nat, c: nat)
    requires Ready(a, b, e) && |out| == a.rows * b.columns && r < a.rows && c < b.columns
    requires Cells(out, a, b, e, r, r + 1, 0, c, a.columns) && CellIs(out, a, b, e, r, c, a.columns)
    ensures Cells(out, a, b, e, r, r + 1, 0, c + 1, a.columns)
  {
    hide Conform, Ready, CellIs;
  }

  lemma OneMoreRow(out: seq<real>, a: Matrix, b: Matrix, e: Epilogue, r: nat)
    requires Ready(a, b, e) && |out| == a.rows * b.columns && r < a.rows
    requires Cells(out, a, b, e, 0, r, 0, b.columns, a.columns) && Cells(out, a, b, e, r, r + 1, 0, b.columns, a.columns)
    ensures Cells(out, a, b, e, 0, r + 1, 0, b.columns, a.columns)
  {
    hide Conform, Ready, CellIs;
  }

  function Transposed(m: Matrix): Matrix {
    Matrix(m.data, m.columns, m.rows, m.columnStride, m.rowStride)
  }

  lemma TransposedOk(m: Matrix)
    requires MatrixOk(m)
    ensures MatrixOk(Transposed(m)) && forall i: nat, j: nat :: i < m.columns && j < m.rows ==> At(Transposed(m), i, j) == At(m, j, i)
  {
    var t := Transposed(m);
    forall i: nat, j: nat | i < t.rows && j < t.columns ensures InData(t, i, j) {
      assert InData(m, j, i);
    }
  }

  /** PackedMatMulRhs: a row-major copy of the right operand, or of its transpose. */
  method Pack(m: Matrix, transpose: bool) returns (p: Matrix)
    requires MatrixOk(m)
    ensures var s := if transpose then Transposed(m) else m;
      && MatrixOk(s) && MatrixOk(p) && p.rows == s.rows && p.columns == s.columns
      && forall i: nat, j: nat :: i < s.rows && j < s.columns ==> At(p, i, j) == At(s, i, j)
    ensures p.rowStride == p.columns && p.columnStride == 1
    ensures if transpose then p.rows == m.columns && p.columns == m.rows else p.rows == m.rows && p.columns == m.columns
  {
    TransposedOk(m);
    var s := if transpose then Transposed(m) else m;
    hide MatrixOk, Place;
    var data: seq<real> := [];
    for i := 0 to s.rows
      invariant |data| == i * s.columns
      invariant forall x: nat, y: nat | x < i && y < s.columns :: Copied(s, data, x, y)
    {
      MulMonotone(i, i, s.columns);
      for j := 0 to s.columns
        invariant |data| == i * s.columns + j
        invariant forall x: nat, y: nat | y < s.columns && (x < i || (x == i && y < j)) :: Copied(s, data, x, y)
      {
        CopyStep(s, data, i, j);
        data := data + [At(s, i, j)];
      }
    }
    p := Matrix(data, s.rows, s.columns, s.columns, 1);
    PackedOk(s, p);
  }

  ghost predicate Copied(s: Matrix, data: seq<real>, x: nat, y: nat) {
    MatrixOk(s) && x < s.rows && y < s.columns && Place(x, s.columns, y) < |data| && data[Place(x, s.columns, y)] == At(s, x, y)
  }

  lemma CopyStep(s: Matrix, data: seq<real>, i: nat, j: nat)
    requires MatrixOk(s) && i < s.rows && j < s.columns && |data| == i * s.columns + j
    ensures Copied(s, data + [At(s, i, j)], i, j)
    ensures forall x: nat, y: nat | Copied(s, data, x, y) :: Copied(s, data + [At(s, i, j)], x, y)
  {
  }

  lemma PackedOk(s: Matrix, p: Matrix)
    requires MatrixOk(s) && p == Matrix(p.data, s.rows, s.columns, s.columns, 1)
    requires forall x: nat, y: nat | x < s.rows && y < s.columns :: Copied(s, p.data, x, y)
    ensures MatrixOk(p) && forall i: nat, j: nat :: i < s.rows && j < s.columns ==> At(p, i, j) == At(s, i, j)
  {
    forall i: nat, j: nat | i < p.rows && j < p.columns ensures InData(p, i, j) {
      assert Copied(s, p.data, i, j);
    }
    forall i: nat, j: nat | i < s.rows && j < s.columns ensures At(p, i, j) == At(s, i, j) {
      assert Copied(s, p.data, i, j);
    }
  }

  /** Equal elements give equal sums. */
  lemma {:induction false} SameDot(a: Matrix, b: Matrix, p: Matrix, r: nat, c: nat, n: nat)
    requires Conform(a, b) && Conform(a, p) && p.columns == b.columns && r < a.rows && c < b.columns && n <= a.columns
    requires forall i: nat, j: nat :: i < b.rows && j < b.columns ==> At(p, i, j) == At(b, i, j)
    ensures Dot(a, p, r, c, n) == Dot(a, b, r, c, n)
  {
    hide At, MatrixOk;
    if n > 0 {
      SameDot(a, b, p, r, c, n - 1);
    }
  }

  /** Runs the epilogue over a finished output. */
  method ApplyEpilogue(out: array<real>, rows: nat, columns: nat, e: Epilogue)
    requires out.Length == rows * columns && BiasCovers(e, rows, columns)
    modifies out
    ensures forall r: nat, c: nat | r < rows && c < columns ::
      Place(r, columns, c) < out.Length && out[Place(r, columns, c)] == Finish(e, old(out[..])[Place(r, columns, c)], r, c)
  {
    hide Place, Finish;
    ghost var first := out[..];
    AllInRange(rows, columns);
    for r := 0 to rows
      invariant FinishedUpTo(first, out[..], rows, columns, e, r, 0)
    {
      for c := 0 to columns
        invariant FinishedUpTo(first, out[..], rows, columns, e, r, c)
      {
        ghost var before := out[..];
        assert FinishedAt(first, before, columns, e, r, c, r, c);
        var i := Index(r, columns, c);
        out[i] := Finish(e, out[i], r, c);
        FinishStep(first, before, out[..], rows, columns, e, r, c);
      }
      FinishRow(first, out[..], rows, columns, e, r);
    }
    forall r: nat, c: nat | r < rows && c < columns ensures out[Place(r, columns, c)] == Finish(e, first[Place(r, columns, c)], r, c) {
      assert FinishedAt(first, out[..], columns, e, r, c, rows, 0);
    }
  }

  lemma AllInRange(rows: nat, columns: nat)
    ensures forall r: nat, c: nat | r < rows && c < columns :: Place(r, columns, c) < rows * columns
  {
    forall r: nat, c: nat | r < rows && c < columns ensures Place(r, columns, c) < rows * columns {
      CellInRange(rows, columns, r, c);
    }
  }

  /** Cells before `(r, c)` in row-major order are finished, the others untouched. */
  ghost predicate FinishedAt(before: seq<real>, after: seq<real>, columns: nat, e: Epilogue, x: nat, y: nat, r: nat, c: nat)
    requires InBias(e, x, y)
  {
    var i := Place(x, columns, y);
    i < |before| && i < |after| && after[i] == if x < r || (x == r && y < c) then Finish(e, before[i], x, y) else before[i]
  }

  ghost predicate FinishedUpTo(before: seq<real>, after: seq<real>, rows: nat, columns: nat, e: Epilogue, r: nat, c: nat)
    requires BiasCovers(e, rows, columns)
  {
    |before| == |after| == rows * columns && forall x: nat, y: nat | x < rows && y < columns :: FinishedAt(before, after, columns, e, x, y, r, c)
  }

  lemma FinishStep(first: seq<real>, before: seq<real>, after: seq<real>, rows: nat, columns: nat, e: Epilogue, r: nat, c: nat)
    requires BiasCovers(e, rows, columns) && FinishedUpTo(first, before, rows, columns, e, r, c) && r < rows && c < columns && Place(r, columns, c) < |before|
    requires after == before[Place(r, columns, c) := Finish(e, before[Place(r, columns, c)], r, c)]
    ensures FinishedUpTo(first, after, rows, columns, e, r, c + 1)
  {
    hide Place, Finish;
    assert FinishedAt(first, before, columns, e, r, c, r, c);
    var next := c + 1;
    forall x: nat, y: nat | x < rows && y < columns ensures FinishedAt(first, after, columns, e, x, y, r, next) {
      assert FinishedAt(first, before, columns, e, x, y, r, c);
      if Place(x, columns, y) == Place(r, columns, c) {
        CellsDiffer(columns, x, y, r, c);
      }
    }
  }

  lemma FinishRow(first: seq<real>, after: seq<real>, rows: nat, columns: nat, e: Epilogue, r: nat)
    requires BiasCovers(e, rows, columns) && FinishedUpTo(first, after, rows, columns, e, r, columns)
    ensures FinishedUpTo(first, after, rows, columns, e, r + 1, 0)
  {
    hide Place, Finish;
    var next := r + 1;
    forall x: nat, y: nat | x < rows && y < columns ensures FinishedAt(first, after, columns, e, x, y, next, 0) {
      assert FinishedAt(first, after, columns, e, x, y, r, columns);
    }
  }

  /** run_packed: the fused loops apply the epilogue exactly once to each complete sum, also when there are no products. */
  method PackedFused(out: array<real>, a: Matrix, b: Matrix, e: Epilogue, rowStep: nat, columnStep: nat, innerStep: nat) returns (ok: bool)
    requires Ready(a, b, e) && out.Length == a.rows * b.columns
    modifies out
    ensures ok <==> rowStep > 0 && columnStep > 0 && innerStep > 0
    ensures ok ==> IsProduct(out[..], a, b, e)
  {
    ReadyConforms(a, b, e);
    hide Conform, Cells, Finish, Dot, Place;
    if rowStep == 0 || columnStep == 0 || innerStep == 0 {
      return false;
    }
    FillZero(out);
    if a.rows == 0 || a.columns == 0 || b.columns == 0 {
      ghost var zeros := out[..];
      ApplyEpilogue(out, a.rows, b.columns, e);
      NoProducts(zeros, out[..], a, b, e);
      return true;
    }
    ZeroCells(out[..], a, b, e);
    BlockLoops(out, a, b, e, true, rowStep, columnStep, innerStep);
    CellsAreProduct(out[..], a, b, e);
    ok := true;
  }

  lemma NoProducts(zeros: seq<real>, out: seq<real>, a: Matrix, b: Matrix, e: Epilogue)
    requires Ready(a, b, e) && |zeros| == |out| == a.rows * b.columns && (a.rows == 0 || a.columns == 0 || b.columns == 0)
    requires forall i :: 0 <= i < |zeros| ==> zeros[i] == 0.0
    requires forall r: nat, c: nat | r < a.rows && c < b.columns ::
      Place(r, b.columns, c) < |out| && out[Place(r, b.columns, c)] == Finish(e, zeros[Place(r, b.columns, c)], r, c)
    ensures IsProduct(out, a, b, e)
  {
    hide Finish, Place;
  }

  // ---- The bias ----

  /** A bias tensor: its layout and its storage. */
  datatype Bias = Bias(layout: Layout, data: seq<real>)

  /** GemmEpilogue and bind: classifies the bias by its two extents and keeps one stride for each that is not repeated.
      Accepted exactly when the bias broadcasts to the output. */
  method BindEpilogue(rows: nat, columns: nat, bias: Option<Bias>, alpha: real, beta: real, relu: bool) returns (r: Option<Epilogue>)
    requires bias.Some? ==> LayoutOk(bias.value.layout)
    ensures r.Some? <==> (bias.Some? ==> Fits(bias.value.layout, [rows, columns]))
    ensures r.Some? ==> BiasBound(r.value, rows, columns, bias, alpha, beta, relu)
  {
    if bias.None? {
      return Some(Epilogue(None, 0, 0, alpha, beta, relu));
    }
    var l := bias.value.layout;
    var rank := |l.shape|;
    if rank > 2 {
      return None;
    }
    var biasRows := if rank == 2 then l.shape[0] else 1;
    var biasColumns := if rank > 0 then l.shape[rank - 1] else 1;
    if (biasRows != 1 && biasRows != rows) || (biasColumns != 1 && biasColumns != columns) {
      return None;
    }
    var rowStride := if rank == 2 && biasRows != 1 then l.strides[0] else 0;
    var columnStride := if rank > 0 && biasColumns != 1 then l.strides[rank - 1] else 0;
    return Some(Epilogue(Some(bias.value.data), rowStride, columnStride, alpha, beta, relu));
  }

  ghost predicate BiasBound(e: Epilogue, rows: nat, columns: nat, bias: Option<Bias>, alpha: real, beta: real, relu: bool) {
    && e.alpha == alpha && e.beta == beta && e.relu == relu && e.bias.Some? == bias.Some?
    && (bias.Some? ==>
          && e.bias.value == bias.value.data && LayoutOk(bias.value.layout) && Fits(bias.value.layout, [rows, columns])
          && StridesOf(bias.value.layout, e))
  }

  /** A stride of zero where the bias is repeated, its own stride elsewhere. */
  ghost predicate StridesOf(l: Layout, e: Epilogue)
    requires LayoutOk(l)
  {
    && e.rowStride == (if |l.shape| == 2 && l.shape[0] != 1 then l.strides[0] else 0)
    && e.columnStride == (if |l.shape| > 0 && l.shape[|l.shape| - 1] != 1 then l.strides[|l.shape| - 1] else 0)
  }

  /** The two direct strides address the element that broadcasting addresses. */
  lemma DirectBias(l: Layout, e: Epilogue, rows: nat, columns: nat, r: nat, c: nat)
    requires Fits(l, [rows, columns]) && |l.shape| <= 2 && StridesOf(l, e) && r < rows && c < columns
    ensures r * e.rowStride + c * e.columnStride == Projected(l, [rows, columns], Place(r, columns, c))
  {
    var i := Place(r, columns, c);
    PlaceDigits(r, columns, c);
    assert i % columns == c && i / columns == r;
    assert [rows, columns][..1] == [rows] && [rows][..0] == [];
    RowDigit(r, rows);
    if l.shape == [] {
      assert Projected(l, [rows, columns], i) == Projected(l, [rows], r);
      assert Projected(l, [rows], r) == Projected(l, [], r / rows);
    } else {
      var m := |l.shape| - 1;
      var front := Layout(l.shape[..m], l.strides[..m]);
      var term := (if l.shape[m] == 1 then 0 else c) * l.strides[m];
      assert Projected(l, [rows, columns], i) == Projected(front, [rows], r) + term;
      ColumnTerm(l.shape[m], c, l.strides[m], e.columnStride);
      if m == 0 {
        assert Projected(front, [rows], r) == Projected(front, [], r / rows);
        RowZero(r, e.rowStride);
      } else {
        var rest := Layout(front.shape[..0], front.strides[..0]);
        assert Projected(front, [rows], r) == Projected(rest, [], r / rows) + (if front.shape[0] == 1 then 0 else r) * front.strides[0];
        ColumnTerm(front.shape[0], r, front.strides[0], e.rowStride);
      }
    }
  }

  lemma RowDigit(r: nat, rows: nat)
    requires r < rows
    ensures r % rows == r && r / rows == 0
  {
    QuotientUnique(r, rows, 0);
    DivisionBounds(r, rows);
  }

  lemma ColumnTerm(extent: nat, x: nat, stride: nat, direct: nat)
    requires direct == if extent != 1 then stride else 0
    ensures x * direct == (if extent == 1 then 0 else x) * stride
  {
  }

  lemma RowZero(r: nat, stride: nat)
    requires stride == 0
    ensures r * stride == 0
  {
  }

  ghost predicate BiasOk(bias: Option<Bias>) {
    bias.Some? ==> LayoutOk(bias.value.layout) && Stored(bias.value.layout, bias.value.data)
  }

  /** The bias broadcasts to the output shape. */
  ghost predicate BiasFits(bias: Option<Bias>, shape: seq<nat>) {
    bias.Some? ==> Fits(bias.value.layout, shape)
  }

  /** A bound bias has an element for every cell. */
  lemma BoundCovers(e: Epilogue, rows: nat, columns: nat, bias: Option<Bias>, alpha: real, beta: real, relu: bool)
    requires BiasBound(e, rows, columns, bias, alpha, beta, relu) && BiasOk(bias)
    ensures BiasCovers(e, rows, columns)
  {
    hide Projected, Place, Stored, Fits, StridesOf, InBias;
    forall r: nat, c: nat | r < rows && c < columns ensures InBias(e, r, c) {
      BoundAt(e, rows, columns, bias, alpha, beta, relu, r, c);
    }
  }

  lemma BoundAt(e: Epilogue, rows: nat, columns: nat, bias: Option<Bias>, alpha: real, beta: real, relu: bool, r: nat, c: nat)
    requires BiasBound(e, rows, columns, bias, alpha, beta, relu) && BiasOk(bias) && r < rows && c < columns
    ensures InBias(e, r, c)
  {
    if bias.Some? {
      assert |bias.value.layout.shape| <= 2;
      hide Projected, Place, Stored, Fits, StridesOf;
      DirectBias(bias.value.layout, e, rows, columns, r, c);
      InOutput(rows, columns, r, c);
      ElementStored(bias.value.layout, bias.value.data, [rows, columns], Place(r, columns, c));
    }
  }

  lemma InOutput(rows: nat, columns: nat, r: nat, c: nat)
    requires r < rows && c < columns
    ensures Place(r, columns, c) < Numel([rows, columns]) == rows * columns
  {
    CellInRange(rows, columns, r, c);
    NumelTwo(rows, columns);
  }

  /** The generic broadcast epilogue at one logical index. */
  function Generic(bias: Option<Bias>, alpha: real, beta: real, relu: bool, shape: seq<nat>, v: real, i: nat): real
    requires BiasOk(bias) && BiasFits(bias, shape) && i < Numel(shape)
  {
    var value :=
      if bias.Some? then
        ElementStored(bias.value.layout, bias.value.data, shape, i);
        alpha * v + beta * bias.value.data[Projected(bias.value.layout, shape, i)]
      else if alpha != 1.0 || relu then alpha * v else v;
    if relu then Relu(value) else value
  }

  /** Finishing a sum in place is applying the generic epilogue to the whole output afterwards. */
  lemma FinishIsGeneric(e: Epilogue, rows: nat, columns: nat, bias: Option<Bias>, alpha: real, beta: real, relu: bool, v: real, r: nat, c: nat)
    requires BiasBound(e, rows, columns, bias, alpha, beta, relu) && BiasOk(bias) && r < rows && c < columns
    ensures InBias(e, r, c) && Place(r, columns, c) < Numel([rows, columns])
    ensures Finish(e, v, r, c) == Generic(bias, alpha, beta, relu, [rows, columns], v, Place(r, columns, c))
  {
    BoundAt(e, rows, columns, bias, alpha, beta, relu, r, c);
    InOutput(rows, columns, r, c);
    hide Projected, Stored, Numel, Place;
    if bias.Some? {
      DirectBias(bias.value.layout, e, rows, columns, r, c);
    }
  }

  // ---- The generic epilogue ----

  /** A bias broadcasts together with the output to exactly the output's shape if and only if it fits it. */
  lemma BroadcastToOutput(target: Layout, l: Layout)
    requires LayoutOk(target) && LayoutOk(l)
    ensures IsBroadcast([target, l], target.shape) <==> Fits(l, target.shape)
  {
    var operands, shape := [target, l], target.shape;
    if IsBroadcast(operands, shape) {
      CombinedFits(operands, |shape|, shape, 1);
    }
    if Fits(l, shape) {
      FitsExtents(l, shape);
      hide Fits;
      assert |operands[0].shape| == |shape|;
      assert forall d :: 0 <= d < |shape| ==> ExtentAt(operands[0], |shape|, d) == shape[d];
      hide ExtentAt;
      assert Combines(operands, |shape|, |operands|, shape);
    }
  }

  lemma FitsExtents(l: Layout, shape: seq<nat>)
    requires Fits(l, shape)
    ensures forall d :: 0 <= d < |shape| ==> ExtentAt(l, |shape|, d) == 1 || ExtentAt(l, |shape|, d) == shape[d]
  {
  }

  /** The loop over the broadcast iterator; refused, with nothing written, exactly when the bias does not fit the output. */
  method GenericEpilogue(out: array<real>, shape: seq<nat>, bias: Option<Bias>, alpha: real, beta: real, relu: bool) returns (ok: bool)
    requires out.Length == Numel(shape) && BiasOk(bias)
    modifies out
    ensures ok <==> BiasFits(bias, shape)
    ensures !ok ==> out[..] == old(out[..])
    ensures ok ==> forall i: nat :: i < out.Length ==> out[i] == Generic(bias, alpha, beta, relu, shape, old(out[i]), i)
  {
    hide Numel, Offset, Projected, Stored, Fits, IsBroadcast, LayoutOk;
    ghost var first := out[..];
    if bias.Some? {
      var target := Layout(shape, RowMajor(shape));
      OutputLayout(target);
      BroadcastToOutput(target, bias.value.layout);
      var made := MakeIterator([target, bias.value.layout]);
      if made.None? {
        return false;
      }
      var it := made.value;
      if it.shape != shape {
        OnlyBroadcast([target, bias.value.layout], it.shape, shape);
        return false;
      }
      assert OperandOk(it, [target, bias.value.layout][1], 1);
      for index := 0 to out.Length
        invariant forall i: nat :: i < index ==> out[i] == Generic(bias, alpha, beta, relu, shape, first[i], i)
        invariant forall i: nat :: index <= i < out.Length ==> out[i] == first[i]
      {
        assert ElementOk(it, bias.value.layout, 1, index);
        ElementStored(bias.value.layout, bias.value.data, shape, index);
        var offset := OperandOffset(it.iterationShape, it.iterationStrides[1], index);
        var value := alpha * out[index] + beta * bias.value.data[offset.value];
        out[index] := if relu then Relu(value) else value;
      }
      return true;
    }
    if alpha != 1.0 || relu {
      for index := 0 to out.Length
        invariant forall i: nat :: i < index ==> out[i] == Generic(bias, alpha, beta, relu, shape, first[i], i)
        invariant forall i: nat :: index <= i < out.Length ==> out[i] == first[i]
      {
        var value := alpha * out[index];
        out[index] := if relu then Relu(value) else value;
      }
    }
    ok := true;
  }

  lemma OutputLayout(l: Layout)
    requires l.strides == RowMajor(l.shape)
    ensures LayoutOk(l)
  {
  }

  // ---- Gemm ----

  /** Every cell is the generic epilogue of its plain sum. */
  ghost predicate GemmResult(out: seq<real>, a: Matrix, b: Matrix, bias: Option<Bias>, alpha: real, beta: real, relu: bool)
    requires Conform(a, b) && BiasOk(bias) && BiasFits(bias, [a.rows, b.columns])
  {
    |out| == a.rows * b.columns && forall r: nat, c: nat | r < a.rows && c < b.columns :: GemmCell(out, a, b, bias, alpha, beta, relu, r, c)
  }

  ghost predicate GemmCell(out: seq<real>, a: Matrix, b: Matrix, bias: Option<Bias>, alpha: real, beta: real, relu: bool, r: nat, c: nat)
    requires Conform(a, b) && BiasOk(bias) && BiasFits(bias, [a.rows, b.columns]) && r < a.rows && c < b.columns
  {
    var i := Place(r, b.columns, c);
    && i < |out| && i < Numel([a.rows, b.columns])
    && out[i] == Generic(bias, alpha, beta, relu, [a.rows, b.columns], Dot(a, b, r, c, a.columns), i)
  }

  /** `y` is alpha times the sum plus beta times the broadcast bias element, cut off at zero if asked. */
  ghost predicate IsFinished(sum: real, bias: Option<Bias>, alpha: real, beta: real, relu: bool, shape: seq<nat>, i: nat, y: real)
    requires BiasOk(bias) && BiasFits(bias, shape)
  {
    && (bias.Some? ==> Projected(bias.value.layout, shape, i) < |bias.value.data|)
    && var v := alpha * sum + if bias.Some? then beta * bias.value.data[Projected(bias.value.layout, shape, i)] else 0.0;
    && (!relu ==> y == v) && (relu ==> y >= 0.0 && (v >= 0.0 ==> y == v) && (v < 0.0 ==> y == 0.0))
  }

  /** Cell `(r, c)` of a row-major output is the finished sum of its stored products. */
  ghost predicate ResultAt(out: seq<real>, a: Matrix, b: Matrix, bias: Option<Bias>, alpha: real, beta: real, relu: bool, r: nat, c: nat)
    requires BiasOk(bias) && BiasFits(bias, [a.rows, b.columns])
  {
    && r * b.columns + c < |out|
    && exists sum: real :: IsDot(a, b, r, c, sum) && IsFinished(sum, bias, alpha, beta, relu, [a.rows, b.columns], r * b.columns + c, out[r * b.columns + c])
  }

  lemma GenericMeans(bias: Option<Bias>, alpha: real, beta: real, relu: bool, shape: seq<nat>, v: real, i: nat)
    requires BiasOk(bias) && BiasFits(bias, shape) && i < Numel(shape)
    ensures IsFinished(v, bias, alpha, beta, relu, shape, i, Generic(bias, alpha, beta, relu, shape, v, i))
  {
    if bias.Some? {
      ElementStored(bias.value.layout, bias.value.data, shape, i);
    }
    hide Projected, Stored, Fits, Numel, LayoutOk;
  }

  /** What a cell of the result holds, in terms of the stored elements of the operands and the bias. */
  lemma GemmMeans(out: seq<real>, a: Matrix, b: Matrix, bias: Option<Bias>, alpha: real, beta: real, relu: bool, r: nat, c: nat)
    requires Conform(a, b) && BiasOk(bias) && BiasFits(bias, [a.rows, b.columns]) && r < a.rows && c < b.columns
    requires GemmResult(out, a, b, bias, alpha, beta, relu)
    ensures ResultAt(out, a, b, bias, alpha, beta, relu, r, c)
  {
    hide Generic, Dot, BiasOk, BiasFits, Numel, IsDot, IsFinished, MatrixOk;
    assert GemmCell(out, a, b, bias, alpha, beta, relu, r, c);
    var sum := Dot(a, b, r, c, a.columns);
    DotMeans(a, b, r, c);
    GenericMeans(bias, alpha, beta, relu, [a.rows, b.columns], sum, r * b.columns + c);
  }

  /** There is only one such output, so all ways to compute it agree. */
  lemma GemmUnique(x: seq<real>, y: seq<real>, a: Matrix, b: Matrix, bias: Option<Bias>, alpha: real, beta: real, relu: bool)
    requires Conform(a, b) && BiasOk(bias) && BiasFits(bias, [a.rows, b.columns])
    requires GemmResult(x, a, b, bias, alpha, beta, relu) && GemmResult(y, a, b, bias, alpha, beta, relu)
    ensures x == y
  {
    hide Generic, Dot, Place, Conform, BiasOk, BiasFits, Numel;
    forall i | 0 <= i < |x| ensures x[i] == y[i] {
      var r, c := CellOf(a.rows, b.columns, i);
      assert GemmCell(x, a, b, bias, alpha, beta, relu, r, c) && GemmCell(y, a, b, bias, alpha, beta, relu, r, c);
    }
  }

  lemma CellOf(rows: nat, columns: nat, i: nat) returns (r: nat, c: nat)
    requires i < rows * columns
    ensures r < rows && c < columns && Place(r, columns, c) == i
  {
    FactorsPositive(rows, columns);
    r, c := i / columns, i % columns;
    DivisionBounds(i, columns);
    MulMonotone(rows, r, columns);
  }

  /** run_gemm: the plain product, then the generic epilogue over the whole output. */
  method GenericGemm(out: array<real>, a: Matrix, b: Matrix, bias: Option<Bias>, alpha: real, beta: real, relu: bool) returns (ok: bool)
    requires Conform(a, b) && BiasOk(bias) && out.Length == a.rows * b.columns
    modifies out
    ensures ok <==> BiasFits(bias, [a.rows, b.columns])
    ensures ok ==> GemmResult(out[..], a, b, bias, alpha, beta, relu)
    ensures ok ==> forall r: nat, c: nat | r < a.rows && c < b.columns ::
      ResultAt(out[..], a, b, bias, alpha, beta, relu, r, c)
  {
    hide Generic, Dot, Place, Conform, BiasOk, BiasFits, Numel, Finish, MatrixOk, ResultAt, SumAt;
    Strided(out, a, b);
    ghost var product := out[..];
    NumelTwo(a.rows, b.columns);
    ok := GenericEpilogue(out, [a.rows, b.columns], bias, alpha, beta, relu);
    if ok {
      forall r: nat, c: nat | r < a.rows && c < b.columns ensures GemmCell(out[..], a, b, bias, alpha, beta, relu, r, c) {
        InOutput(a.rows, b.columns, r, c);
        PlainCell(product, a, b, r, c);
      }
      AllMean(out[..], a, b, bias, alpha, beta, relu);
    }
  }

  lemma AllMean(out: seq<real>, a: Matrix, b: Matrix, bias: Option<Bias>, alpha: real, beta: real, relu: bool)
    requires Conform(a, b) && BiasOk(bias) && BiasFits(bias, [a.rows, b.columns]) && GemmResult(out, a, b, bias, alpha, beta, relu)
    ensures forall r: nat, c: nat | r < a.rows && c < b.columns :: ResultAt(out, a, b, bias, alpha, beta, relu, r, c)
  {
    hide Conform, BiasOk, BiasFits, GemmResult, ResultAt;
    forall r: nat, c: nat | r < a.rows && c < b.columns
      ensures ResultAt(out, a, b, bias, alpha, beta, relu, r, c)
    {
      GemmMeans(out, a, b, bias, alpha, beta, relu, r, c);
    }
  }

  lemma PlainCell(out: seq<real>, a: Matrix, b: Matrix, r: nat, c: nat)
    requires Conform(a, b) && Ready(a, b, Identity) && IsProduct(out, a, b, Identity) && r < a.rows && c < b.columns
    ensures Place(r, b.columns, c) < |out| && out[Place(r, b.columns, c)] == Dot(a, b, r, c, a.columns)
  {
    hide Dot, Place, MatrixOk;
    IdentityKeeps(Dot(a, b, r, c, a.columns), r, c);
  }

  /** Gemm end to end: pack, multiply in blocks, finish in place. It accepts the biases the generic form accepts and
      writes the same output, reading the bias only inside its storage. */
  method FusedGemm(out: array<real>, a: Matrix, m: Matrix, transpose: bool, bias: Option<Bias>, alpha: real, beta: real, relu: bool,
                   rowStep: nat, columnStep: nat, innerStep: nat) returns (ok: bool)
    requires MatrixOk(m) && Conform(a, Operand(m, transpose)) && BiasOk(bias) && out.Length == a.rows * Operand(m, transpose).columns
    modifies out
    ensures ok <==> rowStep > 0 && columnStep > 0 && innerStep > 0 && BiasFits(bias, [a.rows, Operand(m, transpose).columns])
    ensures ok ==> GemmResult(out[..], a, Operand(m, transpose), bias, alpha, beta, relu)
    ensures ok ==>
      var b := if transpose then Matrix(m.data, m.columns, m.rows, m.columnStride, m.rowStride) else m;
      && BiasFits(bias, [a.rows, b.columns]) && out.Length == a.rows * b.columns
      && forall r: nat, c: nat | r < a.rows && c < b.columns :: ResultAt(out[..], a, b, bias, alpha, beta, relu, r, c)
  {
    hide Finish, Generic, Dot, Place, Projected, At, Fits, Numel, Stored, InBias, LayoutOk, ResultAt;
    var b := Operand(m, transpose);
    if rowStep == 0 || columnStep == 0 || innerStep == 0 {
      return false;
    }
    var bound := BindEpilogue(a.rows, b.columns, bias, alpha, beta, relu);
    if bound.None? {
      return false;
    }
    var e := bound.value;
    BoundCovers(e, a.rows, b.columns, bias, alpha, beta, relu);
    var p := Pack(m, transpose);
    ok := PackedFused(out, a, p, e, rowStep, columnStep, innerStep);
    forall r: nat, c: nat | r < a.rows && c < b.columns ensures GemmCell(out[..], a, b, bias, alpha, beta, relu, r, c) {
      SameDot(a, b, p, r, c, a.columns);
      FinishIsGeneric(e, a.rows, b.columns, bias, alpha, beta, relu, Dot(a, b, r, c, a.columns), r, c);
    }
    AllMean(out[..], a, b, bias, alpha, beta, relu);
  }

  /** The right operand, transposed if asked. */
  function Operand(m: Matrix, transpose: bool): Matrix {
    if transpose then Transposed(m) else m
  }
}
