/** Strided offsets, broadcasting and dimension coalescing (src/core/tensor_iterator.cpp). */
module TensorIndexing {
  import opened Prelude
  import opened Arithmetic

  /** Number of logical elements. */
  function Numel(shape: seq<nat>): nat {
    if shape == [] then 1 else Numel(shape[..|shape| - 1]) * shape[|shape| - 1]
  }

  /** Offset of a logical row-major index, last dimension fastest. */
  function Offset(shape: seq<nat>, strides: seq<nat>, i: nat): nat
    requires |shape| == |strides|
  {
    if shape == [] then 0
    else
      var n := |shape| - 1;
      if shape[n] == 0 then 0
      else Offset(shape[..n], strides[..n], i / shape[n]) + i % shape[n] * strides[n]
  }

  // ---- Splitting a shape ----

  lemma DivideTwice(i: nat, a: nat, b: nat)
    requires a > 0 && b > 0
    ensures a * b > 0 && i / b / a == i / (a * b)
    ensures i % (a * b) == i / b % a * b + i % b
  {
    var q, r := i / b, i % b;
    var p, s := q / a, q % a;
    DivisionBounds(i, b);
    DivisionBounds(q, a);
    Positive(a, b);
    TwoDigits(p, a, s, b, r, i);
    QuotientUnique(i, a * b, p);
    DivisionBounds(i, a * b);
  }

  lemma Positive(a: nat, b: nat)
    requires a > 0 && b > 0
    ensures a * b > 0
  {
  }

  lemma TwoDigits(p: nat, a: nat, s: nat, b: nat, r: nat, i: nat)
    requires i == (p * a + s) * b + r && s < a && r < b
    ensures i == p * (a * b) + (s * b + r) && s * b + r < a * b
  {
    assert (p * a + s) * b == p * a * b + s * b;
    assert p * a * b == p * (a * b);
    MulMonotone(s + 1, a, b);
    MulMonotone(s, s, b);
  }

  /** A leading and a trailing part see the quotient and the remainder of the index. */
  lemma {:induction false} OffsetSplits(a: seq<nat>, sa: seq<nat>, c: seq<nat>, sc: seq<nat>, i: nat)
    requires |a| == |sa| && |c| == |sc| && Numel(c) > 0
    ensures Offset(a + c, sa + sc, i) == Offset(a, sa, i / Numel(c)) + Offset(c, sc, i)
    decreases |c|
  {
    if c == [] {
      assert a + c == a && sa + sc == sa;
      DivideByOne(i);
    } else {
      var n := |c| - 1;
      var last := c[n];
      assert (a + c)[..|a| + n] == a + c[..n] && (sa + sc)[..|a| + n] == sa + sc[..n];
      FactorsPositive(Numel(c[..n]), last);
      OffsetSplits(a, sa, c[..n], sc[..n], i / last);
      DivideTwice(i, Numel(c[..n]), last);
    }
  }

  lemma DivideByOne(i: nat)
    ensures i / 1 == i && i % 1 == 0
  {
  }

  lemma FactorsPositive(a: nat, b: nat)
    requires a * b > 0
    ensures a > 0 && b > 0
  {
  }

  lemma {:induction false} NumelConcat(a: seq<nat>, c: seq<nat>)
    ensures Numel(a + c) == Numel(a) * Numel(c)
    decreases |c|
  {
    if c == [] {
      assert a + c == a;
    } else {
      var n := |c| - 1;
      assert (a + c)[..|a| + n] == a + c[..n];
      NumelConcat(a, c[..n]);
      AssociateNat(Numel(a), Numel(c[..n]), c[n]);
    }
  }

  lemma AssociateNat(a: nat, b: nat, c: nat)
    ensures a * b * c == a * (b * c)
  {
  }

  /** Replacing a middle part by an equivalent one changes no offset. */
  lemma MiddleReplaced(a: seq<nat>, sa: seq<nat>, b: seq<nat>, sb: seq<nat>, b': seq<nat>, sb': seq<nat>, c: seq<nat>, sc: seq<nat>, i: nat)
    requires |a| == |sa| && |b| == |sb| && |b'| == |sb'| && |c| == |sc|
    requires Numel(c) > 0 && Numel(b) > 0 && Numel(b') == Numel(b) && forall j: nat :: Offset(b', sb', j) == Offset(b, sb, j)
    ensures Offset(a + b' + c, sa + sb' + sc, i) == Offset(a + b + c, sa + sb + sc, i)
  {
    hide Offset, Numel;
    OffsetSplits(a + b, sa + sb, c, sc, i);
    OffsetSplits(a + b', sa + sb', c, sc, i);
    OffsetSplits(a, sa, b, sb, i / Numel(c));
    OffsetSplits(a, sa, b', sb', i / Numel(c));
  }

  // ---- The two rewrites ----

  lemma One(s: nat, j: nat)
    ensures Numel([1]) == 1 && Offset([1], [s], j) == 0
    ensures Numel([]) == 1 && Offset([], [], j) == 0
  {
    assert [1][..0] == [];
    DivideByOne(j);
  }

  lemma NumelOne(e: nat)
    ensures Numel([e]) == e
  {
    assert [e][..0] == [];
  }

  lemma OffsetOne(e: nat, s: nat, j: nat)
    requires e > 0
    ensures Offset([e], [s], j) == j % e * s
  {
    assert [e][..0] == [] && [s][..0] == [];
  }

  lemma NumelTwo(outer: nat, inner: nat)
    ensures Numel([outer, inner]) == outer * inner
  {
    assert [outer, inner][..1] == [outer];
    NumelOne(outer);
  }

  lemma OffsetTwo(outer: nat, inner: nat, so: nat, si: nat, j: nat)
    requires outer > 0 && inner > 0
    ensures Offset([outer, inner], [so, si], j) == j / inner % outer * so + j % inner * si
  {
    assert [outer, inner][..1] == [outer] && [so, si][..1] == [so];
    OffsetOne(outer, so, j / inner);
  }

  /** Two dimensions that advance linearly across their boundary are one. */
  lemma Merged(outer: nat, inner: nat, so: nat, si: nat, j: nat)
    requires outer > 0 && inner > 0 && so == si * inner
    ensures Offset([outer * inner], [si], j) == Offset([outer, inner], [so, si], j)
  {
    Positive(outer, inner);
    OffsetOne(outer * inner, si, j);
    OffsetTwo(outer, inner, so, si, j);
    DivideTwice(j, outer, inner);
    MergeAlgebra(j / inner % outer, inner, j % inner, si);
  }

  lemma MergeAlgebra(q: nat, inner: nat, r: nat, si: nat)
    ensures (q * inner + r) * si == q * (si * inner) + r * si
  {
    assert (q * inner + r) * si == q * inner * si + r * si;
    AssociateNat(q, inner, si);
  }

  // ---- Coalescing ----

  /** The same offset for every logical index. */
  ghost predicate SameOffsets(shape: seq<nat>, strides: seq<nat>, shape': seq<nat>, strides': seq<nat>) {
    && |strides| == |shape| && |strides'| == |shape'|
    && (Numel(shape) > 0 ==> forall i: nat :: Offset(shape', strides', i) == Offset(shape, strides, i))
  }

  /** Every operand keeps its offsets. */
  ghost predicate Equivalent(shape: seq<nat>, strides: seq<seq<nat>>, shape': seq<nat>, strides': seq<seq<nat>>) {
    && |strides'| == |strides| && Numel(shape') == Numel(shape)
    && forall o :: 0 <= o < |strides| ==> SameOffsets(shape, strides[o], shape', strides'[o])
  }

  lemma EquivalentTransitive(a: seq<nat>, sa: seq<seq<nat>>, b: seq<nat>, sb: seq<seq<nat>>, c: seq<nat>, sc: seq<seq<nat>>)
    requires Equivalent(a, sa, b, sb) && Equivalent(b, sb, c, sc)
    ensures Equivalent(a, sa, c, sc)
  {
    hide Numel, Offset;
    forall o | 0 <= o < |sa| ensures SameOffsets(a, sa[o], c, sc[o]) {
      assert SameOffsets(a, sa[o], b, sb[o]) && SameOffsets(b, sb[o], c, sc[o]);
    }
  }

  function Erase(s: seq<nat>, k: nat): (r: seq<nat>)
    requires k < |s|
    ensures |r| == |s| - 1
  {
    s[..k] + s[k + 1..]
  }

  function EraseAll(strides: seq<seq<nat>>, k: nat): (r: seq<seq<nat>>)
    requires forall o :: 0 <= o < |strides| ==> k < |strides[o]|
    ensures |r| == |strides| && forall o :: 0 <= o < |r| ==> r[o] == Erase(strides[o], k)
  {
    seq(|strides|, o requires 0 <= o < |strides| => Erase(strides[o], k))
  }

  /** The shape with dimensions `k - 1` and `k` as one. */
  function Join(s: seq<nat>, k: nat, x: nat): (r: seq<nat>)
    requires 0 < k < |s|
    ensures |r| == |s| - 1
  {
    s[..k - 1] + [x] + s[k + 1..]
  }

  function JoinAll(strides: seq<seq<nat>>, k: nat): (r: seq<seq<nat>>)
    requires k > 0 && forall o :: 0 <= o < |strides| ==> k < |strides[o]|
    ensures |r| == |strides| && forall o :: 0 <= o < |r| ==> r[o] == Join(strides[o], k, strides[o][k])
  {
    seq(|strides|, o requires 0 <= o < |strides| => Join(strides[o], k, strides[o][k]))
  }

  lemma PartsPositive(a: seq<nat>, b: seq<nat>, c: seq<nat>)
    ensures Numel(a + b + c) == Numel(a) * Numel(b) * Numel(c)
    ensures Numel(a + b + c) > 0 ==> Numel(a) > 0 && Numel(b) > 0 && Numel(c) > 0
  {
    NumelConcat(a + b, c);
    NumelConcat(a, b);
    hide Numel;
    if Numel(a + b + c) > 0 {
      FactorsPositive(Numel(a + b), Numel(c));
      FactorsPositive(Numel(a), Numel(b));
    }
  }

  lemma EraseUnit(shape: seq<nat>, strides: seq<nat>, k: nat)
    requires |strides| == |shape| && k < |shape| && shape[k] == 1
    ensures Numel(Erase(shape, k)) == Numel(shape) && SameOffsets(shape, strides, Erase(shape, k), Erase(strides, k))
  {
    var a, c, sa, sc := shape[..k], shape[k + 1..], strides[..k], strides[k + 1..];
    assert shape == a + [1] + c && strides == sa + [strides[k]] + sc;
    assert Erase(shape, k) == a + [] + c && Erase(strides, k) == sa + [] + sc;
    One(strides[k], 0);
    PartsPositive(a, [1], c);
    PartsPositive(a, [], c);
    hide Numel, Offset, Erase;
    if Numel(shape) > 0 {
      forall j: nat ensures Offset([], [], j) == Offset([1], [strides[k]], j) {
        One(strides[k], j);
      }
      forall i: nat ensures Offset(a + [] + c, sa + [] + sc, i) == Offset(a + [1] + c, sa + [strides[k]] + sc, i) {
        MiddleReplaced(a, sa, [1], [strides[k]], [], [], c, sc, i);
      }
    }
  }

  lemma MergePair(shape: seq<nat>, strides: seq<nat>, k: nat)
    requires |strides| == |shape| && 0 < k < |shape| && strides[k - 1] == strides[k] * shape[k]
    ensures Numel(Join(shape, k, shape[k - 1] * shape[k])) == Numel(shape)
    ensures SameOffsets(shape, strides, Join(shape, k, shape[k - 1] * shape[k]), Join(strides, k, strides[k]))
  {
    var a, c, sa, sc := shape[..k - 1], shape[k + 1..], strides[..k - 1], strides[k + 1..];
    var outer, inner, so, si := shape[k - 1], shape[k], strides[k - 1], strides[k];
    assert shape == a + [outer, inner] + c && strides == sa + [so, si] + sc;
    NumelTwo(outer, inner);
    NumelOne(outer * inner);
    PartsPositive(a, [outer, inner], c);
    PartsPositive(a, [outer * inner], c);
    hide Numel, Offset;
    if Numel(shape) > 0 {
      FactorsPositive(outer, inner);
      forall j: nat ensures Offset([outer * inner], [si], j) == Offset([outer, inner], [so, si], j) {
        Merged(outer, inner, so, si, j);
      }
      forall i: nat ensures Offset(a + [outer * inner] + c, sa + [si] + sc, i) == Offset(a + [outer, inner] + c, sa + [so, si] + sc, i) {
        MiddleReplaced(a, sa, [outer, inner], [so, si], [outer * inner], [si], c, sc, i);
      }
    }
  }

  ghost predicate Aligned(shape: seq<nat>, strides: seq<seq<nat>>) {
    forall o :: 0 <= o < |strides| ==> |strides[o]| == |shape|
  }

  lemma EquivalentRefl(shape: seq<nat>, strides: seq<seq<nat>>)
    requires Aligned(shape, strides)
    ensures Equivalent(shape, strides, shape, strides)
  {
    hide Numel, Offset;
  }

  /** Drops dimensions of extent one. */
  method RemoveUnits(shape: seq<nat>, strides: seq<seq<nat>>) returns (shape': seq<nat>, strides': seq<seq<nat>>)
    requires Aligned(shape, strides)
    ensures Aligned(shape', strides') && Equivalent(shape, strides, shape', strides')
    ensures forall k :: 0 <= k < |shape'| ==> shape'[k] != 1
  {
    hide Numel, Offset, Equivalent;
    shape', strides' := shape, strides;
    EquivalentRefl(shape, strides);
    var dimension := |shape|;
    while dimension > 0
      invariant 0 <= dimension <= |shape'| && Aligned(shape', strides') && Equivalent(shape, strides, shape', strides')
      invariant forall k :: dimension <= k < |shape'| ==> shape'[k] != 1
    {
      var index := dimension - 1;
      if shape'[index] == 1 {
        EraseStep(shape', strides', index);
        EquivalentTransitive(shape, strides, shape', strides', Erase(shape', index), EraseAll(strides', index));
        shape', strides' := Erase(shape', index), EraseAll(strides', index);
      }
      dimension := dimension - 1;
    }
  }

  lemma EraseStep(shape: seq<nat>, strides: seq<seq<nat>>, k: nat)
    requires Aligned(shape, strides) && k < |shape| && shape[k] == 1
    ensures Aligned(Erase(shape, k), EraseAll(strides, k)) && Equivalent(shape, strides, Erase(shape, k), EraseAll(strides, k))
  {
    hide Numel, Offset;
    EraseUnit(shape, shape, k);
    forall o | 0 <= o < |strides| ensures SameOffsets(shape, strides[o], Erase(shape, k), EraseAll(strides, k)[o]) {
      EraseUnit(shape, strides[o], k);
    }
  }

  const MaxSize: nat := 0xFFFF_FFFF_FFFF_FFFF
  const MaxInt64: nat := 0x7FFF_FFFF_FFFF_FFFF

  /** One operand advances linearly across the boundary before dimension `k`. */
  predicate LinearAt(strides: seq<nat>, extent: nat, k: nat)
    requires 0 < k < |strides|
  {
    strides[k - 1] == strides[k] * extent && (strides[k] == 0 || extent <= MaxSize / strides[k])
  }

  /** Every operand advances linearly across the boundary before dimension `k`, and no product overflows. */
  ghost predicate CanMerge(shape: seq<nat>, strides: seq<seq<nat>>, k: nat)
    requires Aligned(shape, strides) && 0 < k < |shape|
  {
    && (forall o :: 0 <= o < |strides| ==> LinearAt(strides[o], shape[k], k))
    && (shape[k] == 0 || shape[k - 1] <= MaxInt64 / shape[k])
  }

  /** Nothing is left to merge. */
  ghost predicate Irreducible(shape: seq<nat>, strides: seq<seq<nat>>, from: nat)
    requires Aligned(shape, strides)
  {
    forall k :: 0 < k < |shape| && from <= k ==> !CanMerge(shape, strides, k)
  }

  method Mergeable(shape: seq<nat>, strides: seq<seq<nat>>, k: nat) returns (ok: bool)
    requires Aligned(shape, strides) && 0 < k < |shape|
    ensures ok <==> CanMerge(shape, strides, k)
  {
    for o := 0 to |strides|
      invariant forall x :: 0 <= x < o ==> LinearAt(strides[x], shape[k], k)
    {
      if strides[o][k] != 0 && shape[k] > MaxSize / strides[o][k] {
        return false;
      }
      if strides[o][k - 1] != strides[o][k] * shape[k] {
        return false;
      }
    }
    ok := !(shape[k] != 0 && shape[k - 1] > MaxInt64 / shape[k]);
  }

  lemma MergeStep(shape: seq<nat>, strides: seq<seq<nat>>, k: nat)
    requires Aligned(shape, strides) && 0 < k < |shape| && |strides| > 0
    requires CanMerge(shape, strides, k)
    ensures var joined := Join(shape, k, shape[k - 1] * shape[k]);
      Aligned(joined, JoinAll(strides, k)) && Equivalent(shape, strides, joined, JoinAll(strides, k))
  {
    hide Numel, Offset;
    assert LinearAt(strides[0], shape[k], k);
    MergePair(shape, strides[0], k);
    forall o | 0 <= o < |strides| ensures SameOffsets(shape, strides[o], Join(shape, k, shape[k - 1] * shape[k]), JoinAll(strides, k)[o]) {
      assert LinearAt(strides[o], shape[k], k);
      MergePair(shape, strides[o], k);
    }
  }

  /** Merges linear neighbours, starting over from the innermost dimension after every merge; ends because each merge
      removes a dimension, and leaves nothing to merge. */
  method MergeLinear(shape: seq<nat>, strides: seq<seq<nat>>) returns (shape': seq<nat>, strides': seq<seq<nat>>)
    requires Aligned(shape, strides) && |strides| > 0
    ensures Aligned(shape', strides') && Equivalent(shape, strides, shape', strides') && |shape'| <= |shape|
    ensures (shape != [] ==> shape' != []) && Irreducible(shape', strides', 1)
  {
    hide Numel, Offset, Equivalent, CanMerge;
    shape', strides' := shape, strides;
    EquivalentRefl(shape, strides);
    var inner := |shape|;
    while inner > 1
      invariant 0 <= inner <= |shape'| <= |shape| && (shape != [] ==> shape' != []) && |strides'| == |strides|
      invariant Aligned(shape', strides') && Equivalent(shape, strides, shape', strides') && Irreducible(shape', strides', inner)
      decreases |shape'|, inner
    {
      var k := inner - 1;
      var ok := Mergeable(shape', strides', k);
      if !ok {
        inner := inner - 1;
      } else {
        MergeStep(shape', strides', k);
        var joined := Join(shape', k, shape'[k - 1] * shape'[k]);
        EquivalentTransitive(shape, strides, shape', strides', joined, JoinAll(strides', k));
        shape', strides' := joined, JoinAll(strides', k);
        inner := |shape'|;
      }
    }
  }

  /** The iteration space the kernels walk: fewer dimensions, the same offset for every operand and logical index. */
  method Coalesce(shape: seq<nat>, strides: seq<seq<nat>>) returns (shape': seq<nat>, strides': seq<seq<nat>>)
    requires Aligned(shape, strides) && |strides| > 0
    ensures Aligned(shape', strides') && Equivalent(shape, strides, shape', strides') && shape' != []
    ensures Irreducible(shape', strides', 1)
  {
    hide Numel, Offset, Equivalent;
    var s, t := RemoveUnits(shape, strides);
    SameCount(shape, strides, s, t);
    if s == [] {
      shape', strides' := [1], seq(|t|, _ => [0]);
      ScalarSpace(t, strides');
      EquivalentTransitive(shape, strides, s, t, shape', strides');
    } else {
      shape', strides' := MergeLinear(s, t);
      EquivalentTransitive(shape, strides, s, t, shape', strides');
    }
  }

  lemma SameCount(shape: seq<nat>, strides: seq<seq<nat>>, shape': seq<nat>, strides': seq<seq<nat>>)
    requires Equivalent(shape, strides, shape', strides')
    ensures |strides'| == |strides|
  {
  }

  lemma ScalarSpace(strides: seq<seq<nat>>, ones: seq<seq<nat>>)
    requires Aligned([], strides) && |ones| == |strides| && forall o :: 0 <= o < |ones| ==> ones[o] == [0]
    ensures Equivalent([], strides, [1], ones) && Aligned([1], ones)
  {
    One(0, 0);
    hide Numel, Offset;
    forall o | 0 <= o < |strides| ensures SameOffsets([], strides[o], [1], ones[o]) {
      assert strides[o] == [];
      forall i: nat ensures Offset([1], [0], i) == Offset([], [], i) {
        One(0, i);
      }
    }
  }

  /** operand_offset: the digits of the index from the last dimension on, each times its stride; None out of range. */
  method OperandOffset(shape: seq<nat>, strides: seq<nat>, index: nat) returns (r: Option<nat>)
    requires |strides| == |shape|
    ensures r.Some? <==> index < Numel(shape)
    ensures r.Some? ==> r.value == Offset(shape, strides, index)
  {
    hide Numel, Offset;
    if index >= Numel(shape) {
      return None;
    }
    var offset: nat := 0;
    var rest, dimension := index, |shape|;
    assert shape[..dimension] == shape && strides[..dimension] == strides;
    while dimension > 0
      invariant 0 <= dimension <= |shape| && Numel(shape[..dimension]) > 0
      invariant offset + Offset(shape[..dimension], strides[..dimension], rest) == Offset(shape, strides, index)
    {
      var n := dimension - 1;
      PeelLast(shape, strides, n, rest);
      var coordinate := rest % shape[n];
      rest := rest / shape[n];
      offset := offset + coordinate * strides[n];
      dimension := n;
    }
    NoDimensions(shape, strides, rest);
    r := Some(offset);
  }

  lemma PeelLast(shape: seq<nat>, strides: seq<nat>, n: nat, i: nat)
    requires |strides| == |shape| && n < |shape| && Numel(shape[..n + 1]) > 0
    ensures shape[n] > 0 && Numel(shape[..n]) > 0
    ensures Offset(shape[..n + 1], strides[..n + 1], i) == Offset(shape[..n], strides[..n], i / shape[n]) + i % shape[n] * strides[n]
  {
    assert shape[..n + 1][..n] == shape[..n] && strides[..n + 1][..n] == strides[..n];
    FactorsPositive(Numel(shape[..n]), shape[n]);
  }

  lemma NoDimensions(shape: seq<nat>, strides: seq<nat>, i: nat)
    requires |strides| == |shape|
    ensures Offset(shape[..0], strides[..0], i) == 0
  {
  }

  // ---- Offsets, one coordinate at a time ----

  /** Coordinate `d` of a logical index. */
  function Coordinate(shape: seq<nat>, d: nat, i: nat): nat
    requires d < |shape| && shape[d] > 0 && Numel(shape[d + 1..]) > 0
  {
    i / Numel(shape[d + 1..]) % shape[d]
  }

  lemma {:induction false} OffsetZero(shape: seq<nat>, strides: seq<nat>)
    requires |strides| == |shape|
    ensures Offset(shape, strides, 0) == 0
    decreases |shape|
  {
    if shape != [] && shape[|shape| - 1] > 0 {
      var n := |shape| - 1;
      OffsetZero(shape[..n], strides[..n]);
      ZeroDigits(shape[n]);
    }
  }

  lemma ZeroDigits(e: nat)
    requires e > 0
    ensures 0 / e == 0 && 0 % e == 0
  {
  }

  /** Advancing one coordinate advances the offset by the stride of that dimension, and by nothing else. */
  lemma {:induction false} OffsetStep(shape: seq<nat>, strides: seq<nat>, d: nat, i: nat)
    requires |strides| == |shape| && d < |shape| && Numel(shape) > 0
    ensures shape[d] > 0 && Numel(shape[d + 1..]) > 0
    ensures Coordinate(shape, d, i) + 1 < shape[d] ==> Offset(shape, strides, i + Numel(shape[d + 1..])) == Offset(shape, strides, i) + strides[d]
    decreases |shape|
  {
    var n := |shape| - 1;
    var e := shape[n];
    FactorsPositive(Numel(shape[..n]), e);
    if d == n {
      OffsetLast(shape, strides, i);
    } else {
      var front := shape[..n];
      OffsetStep(front, strides[..n], d, i / e);
      var inner := Numel(front[d + 1..]);
      SizeBehind(shape, d);
      Positive(inner, e);
      InnerStep(i, inner, e);
      DivideTwice(i, inner, e);
      hide Numel;
      assert Coordinate(shape, d, i) == Coordinate(front, d, i / e);
    }
  }

  lemma OffsetLast(shape: seq<nat>, strides: seq<nat>, i: nat)
    requires |strides| == |shape| && shape != [] && shape[|shape| - 1] > 0
    ensures var n := |shape| - 1;
      && Numel(shape[n + 1..]) == 1
      && (Coordinate(shape, n, i) + 1 < shape[n] ==> Offset(shape, strides, i + 1) == Offset(shape, strides, i) + strides[n])
  {
    var n := |shape| - 1;
    assert shape[n + 1..] == [];
    OneStep(i, shape[n]);
  }

  lemma SizeBehind(shape: seq<nat>, d: nat)
    requires d + 1 < |shape|
    ensures var n := |shape| - 1; Numel(shape[d + 1..]) == Numel(shape[..n][d + 1..]) * shape[n]
  {
    var behind := shape[d + 1..];
    assert behind[..|behind| - 1] == shape[..|shape| - 1][d + 1..];
  }

  lemma OneStep(i: nat, e: nat)
    requires e > 0
    ensures i / 1 == i
    ensures i % e + 1 < e ==> (i + 1) / e == i / e && (i + 1) % e == i % e + 1
  {
    if i % e + 1 < e {
      DivisionBounds(i, e);
      QuotientUnique(i + 1, e, i / e);
      DivisionBounds(i + 1, e);
    }
  }

  lemma InnerStep(i: nat, inner: nat, e: nat)
    requires e > 0
    ensures (i + inner * e) / e == i / e + inner && (i + inner * e) % e == i % e
  {
    DivisionBounds(i, e);
    DivisionBounds(i + inner * e, e);
    assert (i / e + inner) * e == i / e * e + inner * e;
    QuotientUnique(i + inner * e, e, i / e + inner);
  }
}
