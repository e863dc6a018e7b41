/** TensorIterator and the elementwise runners (src/core/tensor_iterator.cpp, include/tinyinfer/ops/kernel_runner.h):
    NumPy broadcasting, contiguity detection, and kernels with a fast and a strided path. */
module Broadcasting {
  import opened Prelude
  import opened Arithmetic
  import opened TensorIndexing

  datatype Layout = Layout(shape: seq<nat>, strides: seq<nat>)

  ghost predicate LayoutOk(l: Layout) {
    |l.strides| == |l.shape|
  }

  // ---- Shapes ----

  /** Extent of an operand in output dimension `d`; missing leading dimensions count as one. */
  function ExtentAt(l: Layout, rank: nat, d: nat): nat
    requires |l.shape| <= rank && d < rank
  {
    if d < rank - |l.shape| then 1 else l.shape[d - (rank - |l.shape|)]
  }

  predicate Agree(a: nat, b: nat) {
    a == b || a == 1 || b == 1
  }

  ghost predicate Ranked(operands: seq<Layout>, rank: nat) {
    forall o :: 0 <= o < |operands| ==> |operands[o].shape| <= rank
  }

  /** No dimension has two different extents other than one. */
  ghost predicate Compatible(operands: seq<Layout>, rank: nat)
    requires Ranked(operands, rank)
  {
    forall a, b, d :: 0 <= a < |operands| && 0 <= b < |operands| && 0 <= d < rank ==> Agree(ExtentAt(operands[a], rank, d), ExtentAt(operands[b], rank, d))
  }

  /** Every operand extent is one or the result's, and the result's is one or some operand's. */
  ghost predicate Combines(operands: seq<Layout>, rank: nat, n: nat, shape: seq<nat>)
    requires Ranked(operands, rank) && n <= |operands| && |shape| == rank
  {
    && (forall o, d :: 0 <= o < n && 0 <= d < rank ==> ExtentAt(operands[o], rank, d) == 1 || ExtentAt(operands[o], rank, d) == shape[d])
    && (forall d :: 0 <= d < rank && shape[d] != 1 ==> exists o :: 0 <= o < n && ExtentAt(operands[o], rank, d) == shape[d])
  }

  ghost predicate Widest(operands: seq<Layout>, rank: nat) {
    Ranked(operands, rank) && exists o :: 0 <= o < |operands| && |operands[o].shape| == rank
  }

  /** The NumPy broadcast of the operands: as many dimensions as the widest of them, and in each the one extent other
      than one, if there is any. */
  ghost predicate IsBroadcast(operands: seq<Layout>, shape: seq<nat>) {
    Widest(operands, |shape|) && Combines(operands, |shape|, |operands|, shape)
  }

  /** There is at most one. */
  lemma BroadcastUnique(operands: seq<Layout>, s: seq<nat>, t: seq<nat>)
    requires IsBroadcast(operands, s) && IsBroadcast(operands, t)
    ensures s == t
  {
    hide ExtentAt;
    var rank := |s|;
    assert |t| == rank;
    forall d | 0 <= d < rank ensures s[d] == t[d] {
    }
  }

  /** Operands with a broadcast are compatible. */
  lemma BroadcastCompatible(operands: seq<Layout>, shape: seq<nat>)
    requires IsBroadcast(operands, shape)
    ensures Compatible(operands, |shape|)
  {
    hide ExtentAt;
    var rank := |shape|;
    forall a, b, d | 0 <= a < |operands| && 0 <= b < |operands| && 0 <= d < rank
      ensures Agree(ExtentAt(operands[a], rank, d), ExtentAt(operands[b], rank, d))
    {
      assert ExtentAt(operands[a], rank, d) == 1 || ExtentAt(operands[a], rank, d) == shape[d];
      assert ExtentAt(operands[b], rank, d) == 1 || ExtentAt(operands[b], rank, d) == shape[d];
    }
  }

  method MaxRank(operands: seq<Layout>) returns (rank: nat)
    ensures Ranked(operands, rank) && (operands != [] ==> Widest(operands, rank))
  {
    rank := 0;
    ghost var widest := 0;
    for i := 0 to |operands|
      invariant forall o :: 0 <= o < i ==> |operands[o].shape| <= rank
      invariant i > 0 ==> 0 <= widest < i && |operands[widest].shape| == rank
    {
      if |operands[i].shape| > rank || i == 0 {
        rank, widest := |operands[i].shape|, i;
      }
    }
  }

  /** One operand joins the shape so far; None when an extent clashes. */
  method JoinShape(l: Layout, rank: nat, shape: seq<nat>) returns (r: Option<seq<nat>>)
    requires |l.shape| <= rank == |shape|
    ensures r.None? <==> exists d :: 0 <= d < rank && !Agree(ExtentAt(l, rank, d), shape[d])
    ensures r.Some? ==> |r.value| == rank && forall d :: 0 <= d < rank ==> r.value[d] == if shape[d] == 1 then ExtentAt(l, rank, d) else shape[d]
  {
    var joined := shape;
    var leading := rank - |l.shape|;
    for d := 0 to |l.shape|
      invariant |joined| == rank
      invariant forall x :: 0 <= x < rank ==> joined[x] == if x < leading + d && shape[x] == 1 then ExtentAt(l, rank, x) else shape[x]
      invariant forall x :: 0 <= x < leading + d ==> Agree(ExtentAt(l, rank, x), shape[x])
    {
      var extent := l.shape[d];
      assert ExtentAt(l, rank, leading + d) == extent;
      if joined[leading + d] == 1 {
        joined := joined[leading + d := extent];
      } else if extent != 1 && extent != joined[leading + d] {
        return None;
      }
    }
    return Some(joined);
  }

  /** The broadcast shape exists exactly when the operands are compatible, and combines them all. */
  method BroadcastShape(operands: seq<Layout>) returns (rank: nat, r: Option<seq<nat>>)
    ensures Ranked(operands, rank) && (operands != [] ==> Widest(operands, rank))
    ensures r.Some? <==> Compatible(operands, rank)
    ensures r.Some? ==> |r.value| == rank && Combines(operands, rank, |operands|, r.value)
  {
    rank := MaxRank(operands);
    var shape: seq<nat> := seq(rank, _ => 1);
    for o := 0 to |operands|
      invariant |shape| == rank && Combines(operands, rank, o, shape)
      invariant forall a, b, d :: 0 <= a < o && 0 <= b < o && 0 <= d < rank ==> Agree(ExtentAt(operands[a], rank, d), ExtentAt(operands[b], rank, d))
    {
      var joined := JoinShape(operands[o], rank, shape);
      if joined.None? {
        Clash(operands, rank, o, shape);
        return rank, None;
      }
      JoinCombines(operands, rank, o, shape, joined.value);
      shape := joined.value;
    }
    return rank, Some(shape);
  }

  lemma Clash(operands: seq<Layout>, rank: nat, o: nat, shape: seq<nat>)
    requires Ranked(operands, rank) && o < |operands| && |shape| == rank && Combines(operands, rank, o, shape)
    requires exists d :: 0 <= d < rank && !Agree(ExtentAt(operands[o], rank, d), shape[d])
    ensures !Compatible(operands, rank)
  {
    hide ExtentAt;
    var d :| 0 <= d < rank && !Agree(ExtentAt(operands[o], rank, d), shape[d]);
    var a :| 0 <= a < o && ExtentAt(operands[a], rank, d) == shape[d];
    assert !Agree(ExtentAt(operands[o], rank, d), ExtentAt(operands[a], rank, d));
  }

  lemma JoinCombines(operands: seq<Layout>, rank: nat, o: nat, shape: seq<nat>, joined: seq<nat>)
    requires Ranked(operands, rank) && o < |operands| && |shape| == |joined| == rank && Combines(operands, rank, o, shape)
    requires forall d :: 0 <= d < rank ==> Agree(ExtentAt(operands[o], rank, d), shape[d])
    requires forall d :: 0 <= d < rank ==> joined[d] == if shape[d] == 1 then ExtentAt(operands[o], rank, d) else shape[d]
    requires forall a, b, d :: 0 <= a < o && 0 <= b < o && 0 <= d < rank ==> Agree(ExtentAt(operands[a], rank, d), ExtentAt(operands[b], rank, d))
    ensures Combines(operands, rank, o + 1, joined)
    ensures forall a, b, d :: 0 <= a < o + 1 && 0 <= b < o + 1 && 0 <= d < rank ==> Agree(ExtentAt(operands[a], rank, d), ExtentAt(operands[b], rank, d))
  {
    hide ExtentAt;
    forall d | 0 <= d < rank && joined[d] != 1 ensures exists x :: 0 <= x < o + 1 && ExtentAt(operands[x], rank, d) == joined[d] {
      if shape[d] == 1 {
        assert ExtentAt(operands[o], rank, d) == joined[d];
      } else {
        var x :| 0 <= x < o && ExtentAt(operands[x], rank, d) == shape[d];
        assert 0 <= x < o + 1 && ExtentAt(operands[x], rank, d) == joined[d];
      }
    }
  }

  // ---- Strides ----

  /** An operand fits the output when each of its extents is one or the output's. */
  ghost predicate Fits(l: Layout, shape: seq<nat>) {
    LayoutOk(l) && |l.shape| <= |shape| && forall d :: 0 <= d < |l.shape| ==> l.shape[d] == 1 || l.shape[d] == shape[d + (|shape| - |l.shape|)]
  }

  /** Strides in output dimensions: zero where the operand is repeated. */
  function BroadcastStrides(l: Layout, shape: seq<nat>): (r: seq<nat>)
    requires Fits(l, shape)
    ensures |r| == |shape|
  {
    var leading := |shape| - |l.shape|;
    seq(|shape|, d requires 0 <= d < |shape| =>
      if d < leading then 0 else if l.shape[d - leading] == shape[d] then l.strides[d - leading] else 0)
  }

  /** The storage offset of the operand element that broadcasting puts at logical index `i`: each coordinate of the
      output index, or zero where the operand has extent one, times the operand's own stride. */
  function Projected(l: Layout, shape: seq<nat>, i: nat): nat
    requires Fits(l, shape)
    decreases |shape|
  {
    if shape == [] then 0
    else
      var n := |shape| - 1;
      if shape[n] == 0 then 0
      else
        var coordinate := i % shape[n];
        if l.shape == [] then Projected(l, shape[..n], i / shape[n])
        else
          var m := |l.shape| - 1;
          Projected(Layout(l.shape[..m], l.strides[..m]), shape[..n], i / shape[n]) +
          (if l.shape[m] == 1 then 0 else coordinate) * l.strides[m]
  }

  lemma {:induction false} BroadcastOffset(l: Layout, shape: seq<nat>, i: nat)
    requires Fits(l, shape)
    ensures Offset(shape, BroadcastStrides(l, shape), i) == Projected(l, shape, i)
    decreases |shape|
  {
    if shape != [] {
      var n := |shape| - 1;
      var strides := BroadcastStrides(l, shape);
      if l.shape == [] {
        assert strides[..n] == BroadcastStrides(l, shape[..n]);
        if shape[n] != 0 {
          BroadcastOffset(l, shape[..n], i / shape[n]);
        }
      } else {
        var m := |l.shape| - 1;
        var front := Layout(l.shape[..m], l.strides[..m]);
        assert strides[..n] == BroadcastStrides(front, shape[..n]);
        if shape[n] != 0 {
          BroadcastOffset(front, shape[..n], i / shape[n]);
          LastTerm(i, shape[n], l.shape[m], l.strides[m], strides[n]);
        }
      }
    }
  }

  lemma LastTerm(i: nat, extent: nat, own: nat, stride: nat, broadcast: nat)
    requires extent > 0 && (own == 1 || own == extent) && broadcast == if own == extent then stride else 0
    ensures i % extent * broadcast == (if own == 1 then 0 else i % extent) * stride
  {
    if extent == 1 {
      DivideByOne(i);
    }
  }

  /** Broadcasting, one coordinate at a time: the first element is at offset zero, and advancing a coordinate advances by
      the operand's own stride, or not at all where the operand is repeated. */
  lemma ProjectedStep(l: Layout, shape: seq<nat>, d: nat, i: nat)
    requires Fits(l, shape) && d < |shape| && Numel(shape) > 0
    ensures shape[d] > 0 && Numel(shape[d + 1..]) > 0 && Projected(l, shape, 0) == 0
    ensures Coordinate(shape, d, i) + 1 < shape[d] ==>
      var leading := |shape| - |l.shape|;
      Projected(l, shape, i + Numel(shape[d + 1..])) == Projected(l, shape, i) + if d < leading || l.shape[d - leading] == 1 then 0 else l.strides[d - leading]
  {
    var strides := BroadcastStrides(l, shape);
    OffsetZero(shape, strides);
    BroadcastOffset(l, shape, 0);
    OffsetStep(shape, strides, d, i);
    BroadcastOffset(l, shape, i);
    BroadcastOffset(l, shape, i + Numel(shape[d + 1..]));
    hide Numel, Offset, Projected, Coordinate;
  }

  // ---- Storage span ----

  /** Largest offset of a nonempty layout. */
  function LargestOffset(shape: seq<nat>, strides: seq<nat>): nat
    requires |strides| == |shape|
  {
    if shape == [] then 0
    else
      var n := |shape| - 1;
      LargestOffset(shape[..n], strides[..n]) + (if shape[n] == 0 then 0 else (shape[n] - 1) * strides[n])
  }

  /** No projected element leaves the operand's storage span. */
  lemma {:induction false} ProjectedInSpan(l: Layout, shape: seq<nat>, i: nat)
    requires Fits(l, shape)
    ensures Projected(l, shape, i) <= LargestOffset(l.shape, l.strides)
    decreases |shape|
  {
    if shape != [] {
      var n := |shape| - 1;
      if shape[n] != 0 {
        if l.shape == [] {
          ProjectedInSpan(l, shape[..n], i / shape[n]);
        } else {
          var m := |l.shape| - 1;
          ProjectedInSpan(Layout(l.shape[..m], l.strides[..m]), shape[..n], i / shape[n]);
          TermBound(if l.shape[m] == 1 then 0 else i % shape[n], l.shape[m], l.strides[m]);
        }
      }
    }
  }

  lemma TermBound(coordinate: nat, extent: nat, stride: nat)
    requires coordinate < extent
    ensures coordinate * stride <= (extent - 1) * stride
  {
    MulMonotone(coordinate, extent - 1, stride);
  }

  // ---- Contiguity ----

  /** Row-major strides in every dimension that matters, `unit` being the innermost step. */
  predicate ContiguousFrom(shape: seq<nat>, strides: seq<nat>, unit: nat)
    requires |strides| == |shape|
  {
    shape == [] ||
    var n := |shape| - 1;
    if shape[n] <= 1 then ContiguousFrom(shape[..n], strides[..n], unit)
    else strides[n] == unit && ContiguousFrom(shape[..n], strides[..n], unit * shape[n])
  }

  /** A contiguous operand's offset is the logical index. */
  lemma {:induction false} ContiguousOffset(shape: seq<nat>, strides: seq<nat>, unit: nat, i: nat)
    requires |strides| == |shape| && ContiguousFrom(shape, strides, unit) && i < Numel(shape)
    ensures Offset(shape, strides, i) == i * unit
    decreases |shape|
  {
    if shape != [] {
      var n := |shape| - 1;
      FactorsPositive(Numel(shape[..n]), shape[n]);
      QuotientBelow(i, Numel(shape[..n]), shape[n]);
      if shape[n] == 1 {
        DivideByOne(i);
        ContiguousOffset(shape[..n], strides[..n], unit, i);
      } else {
        ContiguousOffset(shape[..n], strides[..n], unit * shape[n], i / shape[n]);
        Recompose(i, shape[n], unit);
      }
    }
  }

  lemma QuotientBelow(i: nat, a: nat, b: nat)
    requires b > 0 && i < a * b
    ensures i / b < a
  {
    DivisionBounds(i, b);
    MulMonotone(a, i / b, b);
  }

  lemma Recompose(i: nat, e: nat, unit: nat)
    requires e > 0
    ensures i / e * (unit * e) + i % e * unit == i * unit
  {
    DivisionBounds(i, e);
    MergeAlgebra(i / e, e, i % e, unit);
  }

  /** The scan that flags an operand as contiguous. */
  method IsContiguous(shape: seq<nat>, strides: seq<nat>) returns (flag: bool)
    requires |strides| == |shape| && Numel(shape) > 0
    ensures flag == ContiguousFrom(shape, strides, 1)
  {
    var unit, dimension := 1, |shape|;
    assert shape[..dimension] == shape && strides[..dimension] == strides;
    while dimension > 0
      invariant 0 <= dimension <= |shape|
      invariant ContiguousFrom(shape[..dimension], strides[..dimension], unit) == ContiguousFrom(shape, strides, 1)
    {
      var n := dimension - 1;
      assert shape[..dimension][..n] == shape[..n] && strides[..dimension][..n] == strides[..n];
      if shape[n] > 1 {
        if strides[n] != unit {
          return false;
        }
        unit := unit * shape[n];
      }
      dimension := n;
    }
    flag := true;
  }

  // ---- Row-major strides ----

  /** make_contiguous_strides: each stride is the number of elements behind its dimension. */
  function RowMajor(shape: seq<nat>): (r: seq<nat>)
    ensures |r| == |shape|
  {
    seq(|shape|, d requires 0 <= d < |shape| => Numel(shape[d + 1..]))
  }

  lemma NumelCons(shape: seq<nat>, d: nat)
    requires d < |shape|
    ensures Numel(shape[d..]) == shape[d] * Numel(shape[d + 1..])
  {
    assert shape[d..] == [shape[d]] + shape[d + 1..];
    NumelConcat([shape[d]], shape[d + 1..]);
    NumelOne(shape[d]);
  }

  method ContiguousStrides(shape: seq<nat>) returns (strides: seq<nat>)
    ensures strides == RowMajor(shape)
  {
    hide Numel;
    strides := seq(|shape|, _ => 1);
    var running, dimension := 1, |shape|;
    NoneBehind(shape);
    while dimension > 0
      invariant 0 <= dimension <= |shape| == |strides| && (dimension > 0 ==> running == Numel(shape[dimension..]))
      invariant forall d :: dimension <= d < |shape| ==> strides[d] == Numel(shape[d + 1..])
    {
      var n := dimension - 1;
      strides := strides[n := running];
      NumelCons(shape, n);
      if dimension > 1 {
        running := running * shape[n];
      }
      dimension := n;
    }
  }

  lemma NoneBehind(shape: seq<nat>)
    ensures Numel(shape[|shape|..]) == 1
  {
  }

  /** Row-major strides of a nonempty shape pass the scan. */
  lemma RowMajorContiguous(shape: seq<nat>)
    requires Numel(shape) > 0
    ensures ContiguousFrom(shape, RowMajor(shape), 1)
  {
    NoneBehind(shape);
    RowMajorFront(shape, |shape|);
    assert shape[..|shape|] == shape && RowMajor(shape)[..|shape|] == RowMajor(shape);
  }

  lemma {:induction false} RowMajorFront(shape: seq<nat>, n: nat)
    requires n <= |shape| && Numel(shape) > 0
    ensures ContiguousFrom(shape[..n], RowMajor(shape)[..n], Numel(shape[n..]))
    decreases n
  {
    if n > 0 {
      var m := n - 1;
      var front, strides := shape[..n], RowMajor(shape)[..n];
      assert front[..m] == shape[..m] && strides[..m] == RowMajor(shape)[..m];
      NumelCons(shape, m);
      RowMajorFront(shape, m);
      NonemptyAt(shape, m);
      hide Numel;
      assert strides[m] == Numel(shape[n..]);
    }
  }

  lemma NonemptyAt(shape: seq<nat>, d: nat)
    requires d < |shape| && Numel(shape) > 0
    ensures shape[d] > 0
  {
    assert shape == shape[..d] + shape[d..];
    NumelConcat(shape[..d], shape[d..]);
    NumelCons(shape, d);
    FactorsPositive(Numel(shape[..d]), Numel(shape[d..]));
    FactorsPositive(shape[d], Numel(shape[d + 1..]));
  }

  // ---- The iterator ----

  datatype Iterator = Iterator(shape: seq<nat>, operandStrides: seq<seq<nat>>, iterationShape: seq<nat>, iterationStrides: seq<seq<nat>>, contiguous: seq<bool>)

  /** The shape is the broadcast of the operands. Every operand's iteration offset is the offset of its broadcast element,
      and the logical index itself where flagged; flagged are exactly the operands that are row-major in that shape. */
  ghost predicate IteratorOk(it: Iterator, operands: seq<Layout>) {
    && IsBroadcast(operands, it.shape)
    && |it.contiguous| == |it.iterationStrides| == |it.operandStrides| == |operands| && Numel(it.iterationShape) == Numel(it.shape)
    && forall o :: 0 <= o < |operands| ==> OperandOk(it, operands[o], o)
  }

  ghost predicate OperandOk(it: Iterator, l: Layout, o: nat)
    requires o < |it.iterationStrides| && o < |it.contiguous| && o < |it.operandStrides|
  {
    && Fits(l, it.shape) && |it.iterationStrides[o]| == |it.iterationShape|
    && it.operandStrides[o] == BroadcastStrides(l, it.shape)
    && (it.contiguous[o] <==> Numel(it.shape) == 0 || ContiguousFrom(it.shape, it.operandStrides[o], 1))
    && forall i: nat :: i < Numel(it.shape) ==> ElementOk(it, l, o, i)
  }

  ghost predicate ElementOk(it: Iterator, l: Layout, o: nat, i: nat)
    requires o < |it.iterationStrides| && o < |it.contiguous| && Fits(l, it.shape) && |it.iterationStrides[o]| == |it.iterationShape|
  {
    && Offset(it.iterationShape, it.iterationStrides[o], i) == Projected(l, it.shape, i)
    && (it.contiguous[o] ==> Projected(l, it.shape, i) == i)
  }

  lemma CombinedFits(operands: seq<Layout>, rank: nat, shape: seq<nat>, o: nat)
    requires Ranked(operands, rank) && |shape| == rank && Combines(operands, rank, |operands|, shape) && o < |operands| && LayoutOk(operands[o])
    ensures Fits(operands[o], shape)
  {
    var l := operands[o];
    var leading := rank - |l.shape|;
    forall d | 0 <= d < |l.shape| ensures l.shape[d] == 1 || l.shape[d] == shape[d + leading] {
      assert ExtentAt(l, rank, d + leading) == l.shape[d];
    }
  }

  method Flags(shape: seq<nat>, strides: seq<seq<nat>>) returns (flags: seq<bool>)
    requires Aligned(shape, strides)
    ensures |flags| == |strides|
    ensures forall o :: 0 <= o < |strides| ==> flags[o] == (Numel(shape) == 0 || ContiguousFrom(shape, strides[o], 1))
  {
    flags := [];
    for o := 0 to |strides|
      invariant |flags| == o
      invariant forall x :: 0 <= x < o ==> flags[x] == (Numel(shape) == 0 || ContiguousFrom(shape, strides[x], 1))
    {
      var flag := true;
      if Numel(shape) > 0 {
        flag := IsContiguous(shape, strides[o]);
      }
      flags := flags + [flag];
    }
  }

  /** Builds the iterator; refused for no operands or shapes that cannot be broadcast together. */
  method MakeIterator(operands: seq<Layout>) returns (r: Option<Iterator>)
    requires forall o :: 0 <= o < |operands| ==> LayoutOk(operands[o])
    ensures r.Some? ==> IteratorOk(r.value, operands)
    ensures r.Some? <==> operands != [] && exists rank: nat :: Ranked(operands, rank) && Compatible(operands, rank)
    ensures r.None? ==> forall shape :: !IsBroadcast(operands, shape)
  {
    hide Widest, Combines, Numel, Offset, Equivalent, Projected, Compatible, ContiguousFrom;
    if operands == [] {
      NothingBroadcast(operands);
      return None;
    }
    var rank, shape := BroadcastShape(operands);
    if shape.None? {
      NeverCompatible(operands, rank);
      NoBroadcast(operands);
      return None;
    }
    var strides := [];
    for o := 0 to |operands|
      invariant |strides| == o && forall x :: 0 <= x < o ==> Fits(operands[x], shape.value) && strides[x] == BroadcastStrides(operands[x], shape.value)
    {
      CombinedFits(operands, rank, shape.value, o);
      strides := strides + [BroadcastStrides(operands[o], shape.value)];
    }
    var s, t := Coalesce(shape.value, strides);
    SameCount(shape.value, strides, s, t);
    var flags := Flags(shape.value, strides);
    var it := Iterator(shape.value, strides, s, t, flags);
    EquivalentNumel(shape.value, strides, s, t);
    forall o | 0 <= o < |operands| ensures OperandOk(it, operands[o], o) {
      BuiltOperand(it, operands[o], o);
    }
    return Some(it);
  }

  lemma EquivalentNumel(shape: seq<nat>, strides: seq<seq<nat>>, shape': seq<nat>, strides': seq<seq<nat>>)
    requires Equivalent(shape, strides, shape', strides')
    ensures Numel(shape') == Numel(shape)
  {
  }

  /** Compatibility does not depend on the rank it is asked at. */
  lemma NeverCompatible(operands: seq<Layout>, rank: nat)
    requires Widest(operands, rank) && !Compatible(operands, rank)
    ensures forall other: nat :: Ranked(operands, other) ==> !Compatible(operands, other)
  {
    var a, b, d :| 0 <= a < |operands| && 0 <= b < |operands| && 0 <= d < rank && !Agree(ExtentAt(operands[a], rank, d), ExtentAt(operands[b], rank, d));
    forall other: nat | Ranked(operands, other) ensures !Compatible(operands, other) {
      var o :| 0 <= o < |operands| && |operands[o].shape| == rank;
      var e := d + (other - rank);
      assert ExtentAt(operands[a], other, e) == ExtentAt(operands[a], rank, d) && ExtentAt(operands[b], other, e) == ExtentAt(operands[b], rank, d);
    }
  }

  lemma NothingBroadcast(operands: seq<Layout>)
    requires operands == []
    ensures forall shape :: !IsBroadcast(operands, shape)
  {
  }

  lemma NoBroadcast(operands: seq<Layout>)
    requires forall rank: nat :: Ranked(operands, rank) ==> !Compatible(operands, rank)
    ensures forall shape :: !IsBroadcast(operands, shape)
  {
    hide Compatible, Combines;
    forall shape ensures !IsBroadcast(operands, shape) {
      if IsBroadcast(operands, shape) {
        BroadcastCompatible(operands, shape);
        assert false;
      }
    }
  }

  lemma BuiltOperand(it: Iterator, l: Layout, o: nat)
    requires o < |it.operandStrides| == |it.iterationStrides| == |it.contiguous| && Fits(l, it.shape) && it.operandStrides[o] == BroadcastStrides(l, it.shape)
    requires Equivalent(it.shape, it.operandStrides, it.iterationShape, it.iterationStrides)
    requires it.contiguous[o] == (Numel(it.shape) == 0 || ContiguousFrom(it.shape, it.operandStrides[o], 1))
    ensures OperandOk(it, l, o)
  {
    hide Numel, Offset, Projected, ContiguousFrom, BroadcastStrides, Fits;
    assert SameOffsets(it.shape, it.operandStrides[o], it.iterationShape, it.iterationStrides[o]);
    forall i: nat | i < Numel(it.shape) ensures ElementOk(it, l, o, i) {
      BroadcastOffset(l, it.shape, i);
      if it.contiguous[o] {
        ContiguousOffset(it.shape, it.operandStrides[o], 1, i);
      }
    }
  }

  // ---- The elementwise runner ----

  /** The operand's storage covers its largest offset. */
  ghost predicate Stored<T>(l: Layout, data: seq<T>)
    requires LayoutOk(l)
  {
    Numel(l.shape) > 0 ==> LargestOffset(l.shape, l.strides) < |data|
  }

  lemma {:induction false} OperandNonempty(l: Layout, shape: seq<nat>)
    requires Fits(l, shape) && Numel(shape) > 0
    ensures Numel(l.shape) > 0
    decreases |shape|
  {
    if l.shape != [] {
      var n, m := |shape| - 1, |l.shape| - 1;
      FactorsPositive(Numel(shape[..n]), shape[n]);
      OperandNonempty(Layout(l.shape[..m], l.strides[..m]), shape[..n]);
      Positive(Numel(l.shape[..m]), l.shape[m]);
    }
  }

  lemma ElementStored<T>(l: Layout, data: seq<T>, shape: seq<nat>, i: nat)
    requires Fits(l, shape) && Stored(l, data) && i < Numel(shape)
    ensures Projected(l, shape, i) < |data|
  {
    OperandNonempty(l, shape);
    ProjectedInSpan(l, shape, i);
  }

  /** Output element `i` is the operation on the two broadcast elements, both inside their storage. */
  ghost predicate BinaryAt<T(!new)>(out: T, shape: seq<nat>, a: Layout, x: seq<T>, b: Layout, y: seq<T>, op: (T, T) -> T, i: nat)
    requires Fits(a, shape) && Fits(b, shape)
  {
    var p, q := Projected(a, shape, i), Projected(b, shape, i);
    p < |x| && q < |y| && out == op(x[p], y[q])
  }

  /** Elementwise binary kernel: refused, with nothing written, exactly when the output is not a row-major tensor of the
      broadcast shape. The fast path over contiguous operands and the strided path write the same output. */
  method RunBinary<T(!new)>(output: array<T>, target: Layout, a: Layout, x: seq<T>, b: Layout, y: seq<T>, op: (T, T) -> T) returns (ok: bool)
    requires LayoutOk(a) && LayoutOk(b) && Stored(a, x) && Stored(b, y)
    requires target.strides == RowMajor(target.shape) ==> output.Length == Numel(target.shape)
    modifies output
    ensures ok <==> IsBroadcast([a, b], target.shape) && target.strides == RowMajor(target.shape)
    ensures !ok ==> output[..] == old(output[..])
    ensures ok ==>
      && Fits(a, target.shape) && Fits(b, target.shape) && output.Length == Numel(target.shape)
      && forall i: nat :: i < output.Length ==> BinaryAt(output[i], target.shape, a, x, b, y, op, i)
  {
    hide Numel, Offset, Projected, Stored, Fits, IsBroadcast, RowMajor;
    var made := MakeIterator([a, b]);
    if made.None? {
      return false;
    }
    var it := made.value;
    var strides := ContiguousStrides(target.shape);
    if target.shape != it.shape || target.strides != strides {
      OnlyBroadcast([a, b], it.shape, target.shape);
      return false;
    }
    assert OperandOk(it, [a, b][0], 0) && OperandOk(it, [a, b][1], 1);
    if it.contiguous[0] && it.contiguous[1] {
      for index := 0 to output.Length
        invariant forall i: nat :: i < index ==> BinaryAt(output[i], it.shape, a, x, b, y, op, i)
      {
        assert ElementOk(it, a, 0, index) && ElementOk(it, b, 1, index);
        ElementStored(a, x, it.shape, index);
        ElementStored(b, y, it.shape, index);
        output[index] := op(x[index], y[index]);
      }
      return true;
    }
    for index := 0 to output.Length
      invariant forall i: nat :: i < index ==> BinaryAt(output[i], it.shape, a, x, b, y, op, i)
    {
      assert ElementOk(it, a, 0, index) && ElementOk(it, b, 1, index);
      ElementStored(a, x, it.shape, index);
      ElementStored(b, y, it.shape, index);
      var first := OperandOffset(it.iterationShape, it.iterationStrides[0], index);
      var second := OperandOffset(it.iterationShape, it.iterationStrides[1], index);
      output[index] := op(x[first.value], y[second.value]);
    }
    ok := true;
  }

  lemma OnlyBroadcast(operands: seq<Layout>, shape: seq<nat>, other: seq<nat>)
    requires IsBroadcast(operands, shape)
    ensures IsBroadcast(operands, other) ==> other == shape
  {
    hide IsBroadcast;
    if IsBroadcast(operands, other) {
      BroadcastUnique(operands, shape, other);
    }
  }
}
