/** ReductionIterator (src/core/reduction_iterator.cpp): every input element is one output index and one reduction index. */
module ReductionIndexing {
  import opened Prelude
  import opened Arithmetic
  import opened TensorIndexing
  import opened Broadcasting

  /** Extents of the reduced, or of the kept, dimensions. */
  function Part(shape: seq<nat>, mask: seq<bool>, reduced: bool): seq<nat>
    requires |mask| == |shape|
  {
    if shape == [] then []
    else
      var n := |shape| - 1;
      Part(shape[..n], mask[..n], reduced) + if mask[n] == reduced then [shape[n]] else []
  }

  /** The logical index of the input element with output index `o` and reduction index `r`. */
  function Combine(shape: seq<nat>, mask: seq<bool>, o: nat, r: nat): nat
    requires |mask| == |shape|
  {
    if shape == [] then 0
    else
      var n := |shape| - 1;
      var e := shape[n];
      if e == 0 then 0
      else if mask[n] then Combine(shape[..n], mask[..n], o, r / e) * e + r % e
      else Combine(shape[..n], mask[..n], o / e, r) * e + o % e
  }

  /** The index, among the kept or the reduced dimensions, of a logical input index. */
  function Extract(shape: seq<nat>, mask: seq<bool>, reduced: bool, i: nat): nat
    requires |mask| == |shape|
  {
    if shape == [] then 0
    else
      var n := |shape| - 1;
      var e := shape[n];
      if e == 0 then 0
      else if mask[n] == reduced then Extract(shape[..n], mask[..n], reduced, i / e) * e + i % e
      else Extract(shape[..n], mask[..n], reduced, i / e)
  }

  // ---- Bijection ----

  lemma Digit(q: nat, e: nat, d: nat)
    requires d < e
    ensures (q * e + d) / e == q && (q * e + d) % e == d
  {
    QuotientUnique(q * e + d, e, q);
    DivisionBounds(q * e + d, e);
  }

  lemma DigitBelow(q: nat, a: nat, e: nat, d: nat)
    requires q < a && d < e
    ensures q * e + d < a * e
  {
    MulMonotone(q + 1, a, e);
    MulMonotone(q, q, e);
  }

  lemma NumelSnoc(s: seq<nat>, e: nat)
    ensures Numel(s + [e]) == Numel(s) * e && Numel(s + []) == Numel(s)
  {
    assert (s + [e])[..|s|] == s && s + [] == s;
  }

  /** The numbers of kept and of reduced elements multiply to the number of input elements. */
  lemma {:induction false} PartsMultiply(shape: seq<nat>, mask: seq<bool>)
    requires |mask| == |shape|
    ensures Numel(shape) == Numel(Part(shape, mask, false)) * Numel(Part(shape, mask, true))
    decreases |shape|
  {
    if shape != [] {
      var n := |shape| - 1;
      PartsMultiply(shape[..n], mask[..n]);
      var k, r := Part(shape[..n], mask[..n], false), Part(shape[..n], mask[..n], true);
      NumelSnoc(k, shape[n]);
      NumelSnoc(r, shape[n]);
      hide Numel, Part;
      Regroup(Numel(k), Numel(r), shape[n]);
    }
  }

  lemma Regroup(a: nat, b: nat, e: nat)
    ensures a * b * e == a * (b * e) && a * b * e == (a * e) * b
  {
  }

  /** In range. */
  lemma {:induction false} CombineInRange(shape: seq<nat>, mask: seq<bool>, o: nat, r: nat)
    requires |mask| == |shape| && o < Numel(Part(shape, mask, false)) && r < Numel(Part(shape, mask, true))
    ensures Combine(shape, mask, o, r) < Numel(shape)
    decreases |shape|
  {
    if shape != [] {
      var n := |shape| - 1;
      PartLast(shape, mask, n, o, r);
      if mask[n] {
        CombineInRange(shape[..n], mask[..n], o, r / shape[n]);
        DigitBelow(Combine(shape[..n], mask[..n], o, r / shape[n]), Numel(shape[..n]), shape[n], r % shape[n]);
      } else {
        CombineInRange(shape[..n], mask[..n], o / shape[n], r);
        DigitBelow(Combine(shape[..n], mask[..n], o / shape[n], r), Numel(shape[..n]), shape[n], o % shape[n]);
      }
    }
  }

  /** Dropping the last dimension drops one digit from its own index. */
  lemma PartLast(shape: seq<nat>, mask: seq<bool>, n: nat, o: nat, r: nat)
    requires |mask| == |shape| == n + 1 && o < Numel(Part(shape, mask, false)) && r < Numel(Part(shape, mask, true))
    ensures shape[n] > 0
    ensures var k, d := Numel(Part(shape[..n], mask[..n], false)), Numel(Part(shape[..n], mask[..n], true));
      if mask[n] then o < k && r / shape[n] < d else o / shape[n] < k && r < d
  {
    var a, b := Part(shape[..n], mask[..n], false), Part(shape[..n], mask[..n], true);
    NumelSnoc(a, shape[n]);
    NumelSnoc(b, shape[n]);
    hide Numel;
    if mask[n] {
      FactorsPositive(Numel(b), shape[n]);
      QuotientBelow(r, Numel(b), shape[n]);
    } else {
      FactorsPositive(Numel(a), shape[n]);
      QuotientBelow(o, Numel(a), shape[n]);
    }
  }

  /** One digit of the combined index. */
  lemma CombineLast(shape: seq<nat>, mask: seq<bool>, n: nat, o: nat, r: nat)
    requires |mask| == |shape| == n + 1 && shape[n] > 0
    ensures var e := shape[n];
      Combine(shape, mask, o, r) ==
        if mask[n] then Place(Combine(shape[..n], mask[..n], o, Quot(r, e)), e, Rem(r, e))
        else Place(Combine(shape[..n], mask[..n], Quot(o, e), r), e, Rem(o, e))
  {
  }

  lemma ExtractLast(shape: seq<nat>, mask: seq<bool>, reduced: bool, n: nat, i: nat)
    requires |mask| == |shape| == n + 1 && shape[n] > 0
    ensures var e := shape[n];
      var q := Extract(shape[..n], mask[..n], reduced, Quot(i, e));
      Extract(shape, mask, reduced, i) == if mask[n] == reduced then Place(q, e, Rem(i, e)) else q
  {
  }

  lemma NoParts(shape: seq<nat>, mask: seq<bool>, o: nat, r: nat)
    requires |mask| == |shape| && shape == []
    ensures Numel(Part(shape, mask, false)) == 1 && Numel(Part(shape, mask, true)) == 1
    ensures Combine(shape, mask, o, r) == 0 && Extract(shape, mask, false, 0) == 0 && Extract(shape, mask, true, 0) == 0
  {
  }

  /** Different pairs, different elements: the pair can be read back. */
  lemma {:induction false} ExtractCombine(shape: seq<nat>, mask: seq<bool>, o: nat, r: nat)
    requires |mask| == |shape| && o < Numel(Part(shape, mask, false)) && r < Numel(Part(shape, mask, true))
    ensures Extract(shape, mask, false, Combine(shape, mask, o, r)) == o
    ensures Extract(shape, mask, true, Combine(shape, mask, o, r)) == r
    decreases |shape|
  {
    hide Numel, Part, Combine, Extract, Place, Quot, Rem;
    if shape == [] {
      NoParts(shape, mask, o, r);
    } else {
      var n := |shape| - 1;
      var e := shape[n];
      PartBelow(shape, mask, n, o, r);
      CombineLast(shape, mask, n, o, r);
      var i := Combine(shape, mask, o, r);
      ExtractLast(shape, mask, false, n, i);
      ExtractLast(shape, mask, true, n, i);
      DigitsPlace(r, e);
      DigitsPlace(o, e);
      if mask[n] {
        ExtractCombine(shape[..n], mask[..n], o, Quot(r, e));
        PlaceDigits(Combine(shape[..n], mask[..n], o, Quot(r, e)), e, Rem(r, e));
      } else {
        ExtractCombine(shape[..n], mask[..n], Quot(o, e), r);
        PlaceDigits(Combine(shape[..n], mask[..n], Quot(o, e), r), e, Rem(o, e));
      }
    }
  }

  lemma PartBelow(shape: seq<nat>, mask: seq<bool>, n: nat, o: nat, r: nat)
    requires |mask| == |shape| == n + 1 && o < Numel(Part(shape, mask, false)) && r < Numel(Part(shape, mask, true))
    ensures shape[n] > 0
    ensures var k, d := Numel(Part(shape[..n], mask[..n], false)), Numel(Part(shape[..n], mask[..n], true));
      if mask[n] then o < k && Quot(r, shape[n]) < d else Quot(o, shape[n]) < k && r < d
  {
    PartLast(shape, mask, n, o, r);
  }

  /** Every element is some pair's. */
  lemma {:induction false} CombineExtract(shape: seq<nat>, mask: seq<bool>, i: nat)
    requires |mask| == |shape| && i < Numel(shape)
    ensures Extract(shape, mask, false, i) < Numel(Part(shape, mask, false)) && Extract(shape, mask, true, i) < Numel(Part(shape, mask, true))
    ensures Combine(shape, mask, Extract(shape, mask, false, i), Extract(shape, mask, true, i)) == i
    decreases |shape|
  {
    hide Numel, Part, Combine, Extract, Place, Quot, Rem;
    if shape == [] {
      NoParts(shape, mask, 0, 0);
      NumelNone(shape);
    } else {
      var n := |shape| - 1;
      var e := shape[n];
      IndexBelow(shape, n, i);
      CombineExtract(shape[..n], mask[..n], Quot(i, e));
      ExtractLast(shape, mask, false, n, i);
      ExtractLast(shape, mask, true, n, i);
      DigitsPlace(i, e);
      var q := Extract(shape[..n], mask[..n], mask[n], Quot(i, e));
      PlaceDigits(q, e, Rem(i, e));
      PartGrows(shape, mask, n, q, Rem(i, e));
      CombineLast(shape, mask, n, Extract(shape, mask, false, i), Extract(shape, mask, true, i));
    }
  }

  lemma NumelNone(shape: seq<nat>)
    requires shape == []
    ensures Numel(shape) == 1
  {
  }

  lemma IndexBelow(shape: seq<nat>, n: nat, i: nat)
    requires |shape| == n + 1 && i < Numel(shape)
    ensures shape[n] > 0 && Quot(i, shape[n]) < Numel(shape[..n])
  {
    FactorsPositive(Numel(shape[..n]), shape[n]);
    QuotientBelow(i, Numel(shape[..n]), shape[n]);
  }

  lemma PartGrows(shape: seq<nat>, mask: seq<bool>, n: nat, q: nat, d: nat)
    requires |mask| == |shape| == n + 1 && q < Numel(Part(shape[..n], mask[..n], mask[n])) && d < shape[n]
    ensures Place(q, shape[n], d) < Numel(Part(shape, mask, mask[n]))
    ensures Numel(Part(shape, mask, !mask[n])) == Numel(Part(shape[..n], mask[..n], !mask[n]))
  {
    var own, other := Part(shape[..n], mask[..n], mask[n]), Part(shape[..n], mask[..n], !mask[n]);
    NumelSnoc(own, shape[n]);
    NumelSnoc(other, shape[n]);
    hide Numel;
    DigitBelow(q, Numel(own), shape[n], d);
  }

  // ---- Offsets ----

  /** Storage offset of the pair: kept coordinates from `o`, reduced ones from `r`. */
  function PairOffset(shape: seq<nat>, strides: seq<nat>, mask: seq<bool>, o: nat, r: nat): nat
    requires |mask| == |shape| == |strides|
  {
    if shape == [] then 0
    else
      var n := |shape| - 1;
      var e := shape[n];
      if e == 0 then 0
      else if mask[n] then PairOffset(shape[..n], strides[..n], mask[..n], o, r / e) + r % e * strides[n]
      else PairOffset(shape[..n], strides[..n], mask[..n], o / e, r) + o % e * strides[n]
  }

  /** The pair's offset is the storage offset of its logical index, for any strides. */
  lemma {:induction false} PairIsElement(shape: seq<nat>, strides: seq<nat>, mask: seq<bool>, o: nat, r: nat)
    requires |mask| == |shape| == |strides|
    ensures PairOffset(shape, strides, mask, o, r) == Offset(shape, strides, Combine(shape, mask, o, r))
    decreases |shape|
  {
    if shape != [] {
      var n := |shape| - 1;
      var e := shape[n];
      if e > 0 {
        if mask[n] {
          PairIsElement(shape[..n], strides[..n], mask[..n], o, r / e);
          Digit(Combine(shape[..n], mask[..n], o, r / e), e, r % e);
        } else {
          PairIsElement(shape[..n], strides[..n], mask[..n], o / e, r);
          Digit(Combine(shape[..n], mask[..n], o / e, r), e, o % e);
        }
      }
    }
  }

  /** With row-major strides the pair's offset is its logical index. */
  lemma PairLogical(shape: seq<nat>, strides: seq<nat>, mask: seq<bool>, o: nat, r: nat)
    requires |mask| == |shape| == |strides| && ContiguousFrom(shape, strides, 1)
    requires o < Numel(Part(shape, mask, false)) && r < Numel(Part(shape, mask, true))
    ensures PairOffset(shape, strides, mask, o, r) == Combine(shape, mask, o, r)
  {
    PairIsElement(shape, strides, mask, o, r);
    CombineInRange(shape, mask, o, r);
    ContiguousOffset(shape, strides, 1, Combine(shape, mask, o, r));
  }

  // ---- Coordinates ----

  lemma PartSize(shape: seq<nat>, mask: seq<bool>, reduced: bool)
    requires |mask| == |shape| && shape != []
    ensures var n := |shape| - 1;
      var inner := Numel(Part(shape[..n], mask[..n], reduced));
      Numel(Part(shape, mask, reduced)) == if mask[n] == reduced then inner * shape[n] else inner
  {
    var n := |shape| - 1;
    NumelSnoc(Part(shape[..n], mask[..n], reduced), shape[n]);
  }

  lemma PartPositive(shape: seq<nat>, mask: seq<bool>, reduced: bool)
    requires |mask| == |shape| && Numel(shape) > 0
    ensures Numel(Part(shape, mask, reduced)) > 0
  {
    PartsMultiply(shape, mask);
    hide Numel, Part;
    FactorsPositive(Numel(Part(shape, mask, false)), Numel(Part(shape, mask, true)));
  }

  /** Dividing by the part behind dimension `d`, one dimension at a time. */
  lemma PartBehind(shape: seq<nat>, mask: seq<bool>, reduced: bool, d: nat, x: nat)
    requires |mask| == |shape| && d + 1 < |shape| && shape[|shape| - 1] > 0 && Numel(shape[..|shape| - 1][d + 1..]) > 0
    ensures var n := |shape| - 1;
      var behind, inner := Numel(Part(shape[d + 1..], mask[d + 1..], reduced)), Numel(Part(shape[..n][d + 1..], mask[..n][d + 1..], reduced));
      behind > 0 && inner > 0 && x / behind == (if mask[n] == reduced then x / shape[n] else x) / inner
  {
    var n := |shape| - 1;
    var s, m := shape[d + 1..], mask[d + 1..];
    assert s[..|s| - 1] == shape[..n][d + 1..] && m[..|s| - 1] == mask[..n][d + 1..];
    PartSize(s, m, reduced);
    hide Part;
    PartPositive(s[..|s| - 1], m[..|s| - 1], reduced);
    hide Numel;
    var inner := Numel(Part(s[..|s| - 1], m[..|s| - 1], reduced));
    Positive(inner, shape[n]);
    DivideTwice(x, inner, shape[n]);
  }

  lemma CombineFront(shape: seq<nat>, mask: seq<bool>, o: nat, r: nat, d: nat)
    requires |mask| == |shape| && d + 1 < |shape| && shape[|shape| - 1] > 0 && Numel(shape[..|shape| - 1][d + 1..]) > 0
    ensures var n := |shape| - 1;
      var e := shape[n];
      && Numel(shape[d + 1..]) > 0
      && Combine(shape, mask, o, r) / Numel(shape[d + 1..]) ==
         (if mask[n] then Combine(shape[..n], mask[..n], o, r / e) else Combine(shape[..n], mask[..n], o / e, r)) / Numel(shape[..n][d + 1..])
  {
    var n := |shape| - 1;
    var e := shape[n];
    var front, digit := if mask[n] then Combine(shape[..n], mask[..n], o, r / e) else Combine(shape[..n], mask[..n], o / e, r), if mask[n] then r % e else o % e;
    CombineSplit(shape, mask, o, r);
    hide Combine;
    DigitBack(front, e, digit);
    SizeBehind(shape, d);
    hide Numel;
    var inner := Numel(shape[..n][d + 1..]);
    Positive(inner, e);
    DivideTwice(front * e + digit, inner, e);
  }

  lemma CombineSplit(shape: seq<nat>, mask: seq<bool>, o: nat, r: nat)
    requires |mask| == |shape| && shape != [] && shape[|shape| - 1] > 0
    ensures var n := |shape| - 1;
      var e := shape[n];
      Combine(shape, mask, o, r) ==
        if mask[n] then Combine(shape[..n], mask[..n], o, r / e) * e + r % e else Combine(shape[..n], mask[..n], o / e, r) * e + o % e
  {
  }

  lemma CombineLastDigit(shape: seq<nat>, mask: seq<bool>, o: nat, r: nat)
    requires |mask| == |shape| && shape != [] && shape[|shape| - 1] > 0
    ensures var n := |shape| - 1; Combine(shape, mask, o, r) % shape[n] == if mask[n] then r % shape[n] else o % shape[n]
  {
    var n := |shape| - 1;
    var e := shape[n];
    var front, digit := if mask[n] then Combine(shape[..n], mask[..n], o, r / e) else Combine(shape[..n], mask[..n], o / e, r), if mask[n] then r % e else o % e;
    CombineSplit(shape, mask, o, r);
    hide Combine;
    DigitBack(front, e, digit);
  }

  lemma NothingBehind(shape: seq<nat>, mask: seq<bool>, d: nat)
    requires |mask| == |shape| && d + 1 == |shape|
    ensures Numel(shape[d + 1..]) == Numel(Part(shape[d + 1..], mask[d + 1..], true)) == Numel(Part(shape[d + 1..], mask[d + 1..], false)) == 1
  {
    assert shape[d + 1..] == [];
  }

  /** A pair names the element whose kept coordinates are those of the output index and whose reduced coordinates are those
      of the reduction index, both counted row-major. */
  lemma {:induction false} CombineCoordinate(shape: seq<nat>, mask: seq<bool>, o: nat, r: nat, d: nat)
    requires |mask| == |shape| && d < |shape| && Numel(shape) > 0
    ensures shape[d] > 0 && Numel(shape[d + 1..]) > 0
    ensures Numel(Part(shape[d + 1..], mask[d + 1..], true)) > 0 && Numel(Part(shape[d + 1..], mask[d + 1..], false)) > 0
    ensures Combine(shape, mask, o, r) / Numel(shape[d + 1..]) % shape[d] ==
      if mask[d] then r / Numel(Part(shape[d + 1..], mask[d + 1..], true)) % shape[d] else o / Numel(Part(shape[d + 1..], mask[d + 1..], false)) % shape[d]
    decreases |shape|
  {
    hide Part, Combine;
    var n := |shape| - 1;
    var e := shape[n];
    FactorsPositive(Numel(shape[..n]), e);
    hide Numel;
    if d == n {
      NothingBehind(shape, mask, d);
      CombineLastDigit(shape, mask, o, r);
      DivideByOne(Combine(shape, mask, o, r));
      DivideByOne(r);
      DivideByOne(o);
    } else {
      CombineCoordinate(shape[..n], mask[..n], if mask[n] then o else o / e, if mask[n] then r / e else r, d);
      CombineFront(shape, mask, o, r, d);
      PartBehind(shape, mask, true, d, r);
      PartBehind(shape, mask, false, d, o);
    }
  }

  lemma DigitBack(q: nat, e: nat, digit: nat)
    requires digit < e
    ensures (q * e + digit) / e == q && (q * e + digit) % e == digit
  {
    QuotientUnique(q * e + digit, e, q);
    DivisionBounds(q * e + digit, e);
  }

  // ---- Contiguous reductions ----

  /** Exactly the dimensions from `first` on are reduced. */
  predicate Trailing(mask: seq<bool>, first: nat) {
    first <= |mask| && forall d :: 0 <= d < |mask| ==> (mask[d] <==> d >= first)
  }

  lemma {:induction false} TrailingCombine(shape: seq<nat>, mask: seq<bool>, first: nat, o: nat, r: nat)
    requires |mask| == |shape| && Trailing(mask, first)
    requires o < Numel(Part(shape, mask, false)) && r < Numel(Part(shape, mask, true))
    ensures Combine(shape, mask, o, r) == o * Numel(Part(shape, mask, true)) + r
    decreases |shape|
  {
    hide Numel, Part, Combine, Place, Quot, Rem;
    if shape == [] {
      NoParts(shape, mask, o, r);
      TimesOne(o);
    } else {
      var n := |shape| - 1;
      var e := shape[n];
      PartBelow(shape, mask, n, o, r);
      CombineLast(shape, mask, n, o, r);
      DigitsPlace(r, e);
      DigitsPlace(o, e);
      if mask[n] {
        TrailingCombine(shape[..n], mask[..n], first, o, Quot(r, e));
        TrailingSize(shape, mask, n);
        AppendDigit(o, Numel(Part(shape[..n], mask[..n], true)), Quot(r, e), e, Rem(r, e));
      } else {
        TrailingCombine(shape[..n], mask[..n], n, Quot(o, e), r);
        NothingReduced(shape, mask);
        NothingReduced(shape[..n], mask[..n]);
        TimesOne(Quot(o, e));
        TimesOne(o);
      }
    }
  }

  lemma TrailingSize(shape: seq<nat>, mask: seq<bool>, n: nat)
    requires |mask| == |shape| == n + 1 && mask[n]
    ensures Numel(Part(shape, mask, true)) == Numel(Part(shape[..n], mask[..n], true)) * shape[n]
  {
    NumelSnoc(Part(shape[..n], mask[..n], true), shape[n]);
  }

  lemma AppendDigit(o: nat, size: nat, q: nat, e: nat, d: nat)
    ensures Place(o * size + q, e, d) == o * (size * e) + Place(q, e, d)
  {
    Append(o, size, q, e, d);
  }

  lemma TimesOne(x: nat)
    ensures x * 1 == x
  {
  }

  lemma Append(o: nat, size: nat, q: nat, e: nat, d: nat)
    ensures (o * size + q) * e + d == o * (size * e) + (q * e + d)
  {
    assert (o * size + q) * e == o * size * e + q * e;
    Regroup(o, size, e);
  }

  lemma {:induction false} NothingReduced(shape: seq<nat>, mask: seq<bool>)
    requires |mask| == |shape| && forall d :: 0 <= d < |mask| ==> !mask[d]
    ensures Part(shape, mask, true) == [] && Numel(Part(shape, mask, true)) == 1
    decreases |shape|
  {
    if shape != [] {
      NothingReduced(shape[..|shape| - 1], mask[..|shape| - 1]);
    }
  }

  /** The contiguous flag: trailing axes of a row-major input are addressed by group * size + index. */
  lemma ContiguousReduction(shape: seq<nat>, strides: seq<nat>, mask: seq<bool>, first: nat, o: nat, r: nat)
    requires |mask| == |shape| == |strides| && ContiguousFrom(shape, strides, 1) && Trailing(mask, first)
    requires o < Numel(Part(shape, mask, false)) && r < Numel(Part(shape, mask, true))
    ensures PairOffset(shape, strides, mask, o, r) == o * Numel(Part(shape, mask, true)) + r
  {
    PairLogical(shape, strides, mask, o, r);
    TrailingCombine(shape, mask, first, o, r);
  }

  // ---- The code ----

  /** Marks the reduced dimensions; refused for no axes, an axis out of range, or a repeated one. */
  method MarkAxes(rank: nat, axes: seq<int>) returns (r: Option<seq<bool>>, normalized: seq<nat>)
    ensures r.Some? <==> AxesOk(rank, axes)
    ensures r.Some? ==> |normalized| == |axes| && forall i :: 0 <= i < |axes| ==> normalized[i] == Wrap(rank, axes[i])
    ensures r.Some? ==> |r.value| == rank && forall d :: 0 <= d < rank ==> (r.value[d] <==> exists i :: 0 <= i < |axes| && Wrap(rank, axes[i]) == d)
  {
    normalized := [];
    if axes == [] {
      return None, [];
    }
    var mask: seq<bool> := seq(rank, _ => false);
    for k := 0 to |axes|
      invariant |normalized| == k && forall i :: 0 <= i < k ==> normalized[i] == Wrap(rank, axes[i])
      invariant |mask| == rank && forall i :: 0 <= i < k ==> 0 <= Wrap(rank, axes[i]) < rank
      invariant forall d :: 0 <= d < rank ==> (mask[d] <==> exists i :: 0 <= i < k && Wrap(rank, axes[i]) == d)
      invariant forall i, j :: 0 <= i < j < k ==> Wrap(rank, axes[i]) != Wrap(rank, axes[j])
    {
      var axis := Wrap(rank, axes[k]);
      if axis < 0 || axis >= rank {
        return None, [];
      }
      if mask[axis] {
        return None, [];
      }
      mask, normalized := mask[axis := true], normalized + [axis];
    }
    return Some(mask), normalized;
  }

  /** At least one axis, all in range and no two the same. */
  predicate AxesOk(rank: nat, axes: seq<int>) {
    && axes != [] && (forall i :: 0 <= i < |axes| ==> 0 <= Wrap(rank, axes[i]) < rank)
    && forall i, j :: 0 <= i < j < |axes| ==> Wrap(rank, axes[i]) != Wrap(rank, axes[j])
  }

  /** Negative axes count from the end. */
  function Wrap(rank: nat, axis: int): int {
    if axis < 0 then axis + rank else axis
  }

  /** offset_with_strides: one pass for the kept dimensions, one for the reduced ones; None out of range. The result is
      the storage offset of the pair's own input element. */
  method PairOffsetLoops(shape: seq<nat>, strides: seq<nat>, mask: seq<bool>, o: nat, r: nat) returns (result: Option<nat>)
    requires |mask| == |shape| == |strides|
    ensures result.Some? <==> o < Numel(Part(shape, mask, false)) && r < Numel(Part(shape, mask, true))
    ensures result.Some? ==>
      var i := Combine(shape, mask, o, r);
      i < Numel(shape) && result.value == PairOffset(shape, strides, mask, o, r) == Offset(shape, strides, i)
  {
    hide Numel, Part, Combine, PairOffset, Offset, PartOffset;
    if o >= Numel(Part(shape, mask, false)) || r >= Numel(Part(shape, mask, true)) {
      return None;
    }
    CombineInRange(shape, mask, o, r);
    PairIsElement(shape, strides, mask, o, r);
    var kept := DigitSum(shape, strides, mask, false, o);
    var reduced := DigitSum(shape, strides, mask, true, r);
    SumsAdd(shape, strides, mask, o, r);
    result := Some(kept + reduced);
  }

  /** The contribution of one kind of dimension. */
  function PartOffset(shape: seq<nat>, strides: seq<nat>, mask: seq<bool>, reduced: bool, i: nat): nat
    requires |mask| == |shape| == |strides|
  {
    if shape == [] then 0
    else
      var n := |shape| - 1;
      var e := shape[n];
      if e == 0 then 0
      else if mask[n] == reduced then PartOffset(shape[..n], strides[..n], mask[..n], reduced, i / e) + i % e * strides[n]
      else PartOffset(shape[..n], strides[..n], mask[..n], reduced, i)
  }

  lemma {:induction false} SumsAdd(shape: seq<nat>, strides: seq<nat>, mask: seq<bool>, o: nat, r: nat)
    requires |mask| == |shape| == |strides|
    ensures PairOffset(shape, strides, mask, o, r) == PartOffset(shape, strides, mask, false, o) + PartOffset(shape, strides, mask, true, r)
    decreases |shape|
  {
    if shape != [] {
      var n := |shape| - 1;
      var e := shape[n];
      if e > 0 {
        if mask[n] {
          SumsAdd(shape[..n], strides[..n], mask[..n], o, r / e);
        } else {
          SumsAdd(shape[..n], strides[..n], mask[..n], o / e, r);
        }
      }
    }
  }

  method DigitSum(shape: seq<nat>, strides: seq<nat>, mask: seq<bool>, reduced: bool, index: nat) returns (sum: nat)
    requires |mask| == |shape| == |strides| && Numel(shape) > 0
    ensures sum == PartOffset(shape, strides, mask, reduced, index)
  {
    hide Numel, PartOffset;
    sum := 0;
    var rest, dimension := index, |shape|;
    assert shape[..dimension] == shape && strides[..dimension] == strides && mask[..dimension] == mask;
    while dimension > 0
      invariant 0 <= dimension <= |shape| && Numel(shape[..dimension]) > 0
      invariant sum + PartOffset(shape[..dimension], strides[..dimension], mask[..dimension], reduced, rest) == PartOffset(shape, strides, mask, reduced, index)
    {
      var n := dimension - 1;
      PeelPart(shape, strides, mask, reduced, n, rest);
      if mask[n] == reduced {
        sum := sum + rest % shape[n] * strides[n];
        rest := rest / shape[n];
      }
      dimension := n;
    }
    NothingLeft(shape, strides, mask, reduced, rest);
  }

  lemma PeelPart(shape: seq<nat>, strides: seq<nat>, mask: seq<bool>, reduced: bool, n: nat, i: nat)
    requires |mask| == |shape| == |strides| && n < |shape| && Numel(shape[..n + 1]) > 0
    ensures shape[n] > 0 && Numel(shape[..n]) > 0
    ensures PartOffset(shape[..n + 1], strides[..n + 1], mask[..n + 1], reduced, i) ==
      if mask[n] == reduced then PartOffset(shape[..n], strides[..n], mask[..n], reduced, i / shape[n]) + i % shape[n] * strides[n]
      else PartOffset(shape[..n], strides[..n], mask[..n], reduced, i)
  {
    assert shape[..n + 1][..n] == shape[..n] && strides[..n + 1][..n] == strides[..n] && mask[..n + 1][..n] == mask[..n];
    FactorsPositive(Numel(shape[..n]), shape[n]);
  }

  lemma NothingLeft(shape: seq<nat>, strides: seq<nat>, mask: seq<bool>, reduced: bool, i: nat)
    requires |mask| == |shape| == |strides|
    ensures PartOffset(shape[..0], strides[..0], mask[..0], reduced, i) == 0
  {
  }

  // ---- The iterator ----

  ghost predicate Ascending(s: seq<nat>) {
    forall i, j :: 0 <= i < j < |s| ==> s[i] < s[j]
  }

  /** Sorted insertion of a new element. */
  function Insert(s: seq<nat>, x: nat): (r: seq<nat>)
    ensures |r| == |s| + 1 && forall y :: y in r <==> y in s || y == x
  {
    if s == [] then [x] else if x <= s[0] then [x] + s else [s[0]] + Insert(s[1..], x)
  }

  lemma {:induction false} InsertAscends(s: seq<nat>, x: nat)
    requires Ascending(s) && x !in s
    ensures Ascending(Insert(s, x))
    decreases |s|
  {
    if s != [] && x > s[0] {
      InsertAscends(s[1..], x);
      var rest := Insert(s[1..], x);
      assert forall y :: y in rest ==> y in s[1..] || y == x;
      hide Insert;
      SmallerFirst(s);
      PrependAscends(s[0], rest);
    }
  }

  lemma SmallerFirst(s: seq<nat>)
    requires Ascending(s) && s != []
    ensures forall y :: y in s[1..] ==> s[0] < y
  {
  }

  lemma PrependAscends(x: nat, s: seq<nat>)
    requires Ascending(s) && forall y :: y in s ==> x < y
    ensures Ascending([x] + s)
  {
    var t := [x] + s;
    forall i, j | 0 <= i < j < |t| ensures t[i] < t[j] {
      assert t[j] == s[j - 1] && s[j - 1] in s;
      assert i > 0 ==> t[i] == s[i - 1];
    }
  }

  function SortAxes(s: seq<nat>): (r: seq<nat>)
    ensures |r| == |s| && forall y :: y in r <==> y in s
  {
    if s == [] then [] else Insert(SortAxes(s[..|s| - 1]), s[|s| - 1])
  }

  lemma {:induction false} SortAscends(s: seq<nat>)
    requires forall i, j :: 0 <= i < j < |s| ==> s[i] != s[j]
    ensures Ascending(SortAxes(s))
    decreases |s|
  {
    if s != [] {
      var n := |s| - 1;
      SortAscends(s[..n]);
      assert s[n] !in s[..n];
      InsertAscends(SortAxes(s[..n]), s[n]);
    }
  }

  /** The marked dimensions in order. */
  function Marked(mask: seq<bool>): (r: seq<nat>)
    ensures |r| <= |mask| && forall d :: d in r <==> 0 <= d < |mask| && mask[d]
  {
    if mask == [] then []
    else
      var n := |mask| - 1;
      Marked(mask[..n]) + if mask[n] then [n] else []
  }

  ghost predicate Lists(s: seq<nat>, mask: seq<bool>) {
    Ascending(s) && forall d :: d in s <==> 0 <= d < |mask| && mask[d]
  }

  /** Sorting the axes lists the marked dimensions in order. */
  lemma {:induction false} SortedIsMarked(s: seq<nat>, mask: seq<bool>)
    requires Lists(s, mask)
    ensures s == Marked(mask)
    decreases |mask|
  {
    hide Lists;
    if mask == [] {
      ListsNothing(s, mask);
    } else {
      var n := |mask| - 1;
      ListsLast(s, mask);
      SortedIsMarked(if mask[n] then s[..|s| - 1] else s, mask[..n]);
    }
  }

  lemma ListsNothing(s: seq<nat>, mask: seq<bool>)
    requires mask == [] && Lists(s, mask)
    ensures s == []
  {
    FirstMember(s);
  }

  lemma FirstMember(s: seq<nat>)
    ensures s == [] || s[0] in s
  {
  }

  lemma ListsLast(s: seq<nat>, mask: seq<bool>)
    requires mask != [] && Lists(s, mask)
    ensures var n := |mask| - 1;
      if mask[n] then s != [] && s == s[..|s| - 1] + [n] && Lists(s[..|s| - 1], mask[..n]) else Lists(s, mask[..n])
  {
    var n := |mask| - 1;
    if mask[n] {
      assert n in s;
      var last := |s| - 1;
      assert s[last] in s;
      var front := s[..last];
      forall d ensures d in front <==> 0 <= d < n && mask[d] {
        assert d in s <==> d in front || d == s[last];
        assert d in front ==> d < s[last];
      }
    }
  }

  /** Trailing axes are the last dimensions, in order. */
  lemma {:induction false} TrailingMarked(mask: seq<bool>, first: nat)
    requires Trailing(mask, first)
    ensures |Marked(mask)| == |mask| - first && forall k :: 0 <= k < |Marked(mask)| ==> Marked(mask)[k] == first + k
    decreases |mask|
  {
    if mask != [] {
      var n := |mask| - 1;
      TrailingMarked(mask[..n], if first <= n then first else n);
    }
  }

  lemma MarkedTrailing(mask: seq<bool>)
    requires var first := |mask| - |Marked(mask)|; forall k :: 0 <= k < |Marked(mask)| ==> Marked(mask)[k] == first + k
    ensures Trailing(mask, |mask| - |Marked(mask)|)
  {
    var first := |mask| - |Marked(mask)|;
    forall d | 0 <= d < |mask| ensures mask[d] <==> d >= first {
      if d >= first {
        assert Marked(mask)[d - first] == d;
        assert d in Marked(mask);
      }
      if mask[d] {
        assert d in Marked(mask);
        var k :| 0 <= k < |Marked(mask)| && Marked(mask)[k] == d;
      }
    }
  }

  lemma {:induction false} MarkedExtents(shape: seq<nat>, mask: seq<bool>)
    requires |mask| == |shape|
    ensures |Part(shape, mask, true)| == |Marked(mask)|
    ensures forall k :: 0 <= k < |Marked(mask)| ==> Marked(mask)[k] < |shape| && Part(shape, mask, true)[k] == shape[Marked(mask)[k]]
    decreases |shape|
  {
    if shape != [] {
      MarkedExtents(shape[..|shape| - 1], mask[..|shape| - 1]);
    }
  }

  /** The reported output shape: reduced dimensions are dropped, or kept with extent one. */
  function OutputShape(shape: seq<nat>, mask: seq<bool>, keepdim: bool): seq<nat>
    requires |mask| == |shape|
  {
    if shape == [] then []
    else
      var n := |shape| - 1;
      OutputShape(shape[..n], mask[..n], keepdim) + if !mask[n] then [shape[n]] else if keepdim then [1] else []
  }

  /** Either way it has as many elements as there are kept ones. */
  lemma {:induction false} OutputSize(shape: seq<nat>, mask: seq<bool>, keepdim: bool)
    requires |mask| == |shape|
    ensures Numel(OutputShape(shape, mask, keepdim)) == Numel(Part(shape, mask, false))
    decreases |shape|
  {
    if shape != [] {
      var n := |shape| - 1;
      OutputSize(shape[..n], mask[..n], keepdim);
      var before := OutputShape(shape[..n], mask[..n], keepdim);
      NumelSnoc(before, shape[n]);
      NumelSnoc(before, 1);
      NumelSnoc(Part(shape[..n], mask[..n], false), shape[n]);
    }
  }

  datatype Reduction = Reduction(mask: seq<bool>, axes: seq<nat>, outputShape: seq<nat>, reductionShape: seq<nat>, contiguous: bool)

  ghost predicate ReductionOk(it: Reduction, shape: seq<nat>, strides: seq<nat>, axes: seq<int>, keepdim: bool)
    requires |strides| == |shape|
  {
    && |it.mask| == |shape|
    && (forall d :: 0 <= d < |shape| ==> (it.mask[d] <==> exists i :: 0 <= i < |axes| && Wrap(|shape|, axes[i]) == d))
    && it.axes == Marked(it.mask) && |it.axes| == |axes|
    && it.outputShape == OutputShape(shape, it.mask, keepdim) && it.reductionShape == Part(shape, it.mask, true)
    && (it.contiguous <==> strides == RowMajor(shape) && Trailing(it.mask, |shape| - |axes|))
    && (it.contiguous ==> forall o: nat, r: nat | o < Numel(it.outputShape) && r < Numel(it.reductionShape) ::
          PairOffset(shape, strides, it.mask, o, r) == o * Numel(it.reductionShape) + r)
  }

  /** The iterator's constructor: refused exactly for invalid axes. The contiguous flag is set exactly for trailing axes of
      a row-major input, and then every pair is addressed by group * size + index. */
  method NewReduction(shape: seq<nat>, strides: seq<nat>, axes: seq<int>, keepdim: bool) returns (r: Option<Reduction>)
    requires |strides| == |shape|
    ensures r.Some? <==> AxesOk(|shape|, axes)
    ensures r.Some? ==> ReductionOk(r.value, shape, strides, axes, keepdim)
  {
    hide Numel, Part, OutputShape, PairOffset, Trailing, Marked, SortAxes, RowMajor, Ascending;
    var marked, normalized := MarkAxes(|shape|, axes);
    if marked.None? {
      return None;
    }
    var mask := marked.value;
    AxesMarked(|shape|, axes, normalized, mask);
    var sorted := SortAxes(normalized);
    var outputShape := CollectOutput(shape, mask, keepdim);
    MarkedExtents(shape, mask);
    var reductionShape: seq<nat> := [];
    for k := 0 to |sorted|
      invariant |reductionShape| == k && reductionShape == Part(shape, mask, true)[..k]
    {
      reductionShape := reductionShape + [shape[sorted[k]]];
    }
    assert reductionShape == Part(shape, mask, true);
    var rowMajor := ContiguousStrides(shape);
    var contiguous := strides == rowMajor;
    var first := |shape| - |sorted|;
    var trailing := true;
    for k := 0 to |sorted|
      invariant trailing <==> forall i :: 0 <= i < k ==> sorted[i] == first + i
    {
      if sorted[k] != first + k {
        trailing := false;
        break;
      }
    }
    FlagMeans(mask, sorted, trailing);
    var it := Reduction(mask, sorted, outputShape, reductionShape, contiguous && trailing);
    FlaggedPairs(shape, strides, it, keepdim, first);
    return Some(it);
  }

  method CollectOutput(shape: seq<nat>, mask: seq<bool>, keepdim: bool) returns (r: seq<nat>)
    requires |mask| == |shape|
    ensures r == OutputShape(shape, mask, keepdim)
  {
    r := [];
    for d := 0 to |shape|
      invariant r == OutputShape(shape[..d], mask[..d], keepdim)
    {
      assert shape[..d + 1][..d] == shape[..d] && mask[..d + 1][..d] == mask[..d];
      if mask[d] {
        if keepdim {
          r := r + [1];
        }
      } else {
        r := r + [shape[d]];
      }
    }
    assert shape[..|shape|] == shape && mask[..|shape|] == mask;
  }

  lemma AxesMarked(rank: nat, axes: seq<int>, normalized: seq<nat>, mask: seq<bool>)
    requires AxesOk(rank, axes) && |mask| == rank && |normalized| == |axes|
    requires forall i :: 0 <= i < |axes| ==> normalized[i] == Wrap(rank, axes[i])
    requires forall d :: 0 <= d < rank ==> (mask[d] <==> exists i :: 0 <= i < |axes| && Wrap(rank, axes[i]) == d)
    ensures SortAxes(normalized) == Marked(mask)
  {
    hide Ascending, Marked, Wrap;
    forall i, j | 0 <= i < j < |normalized| ensures normalized[i] != normalized[j] {
      assert Wrap(rank, axes[i]) != Wrap(rank, axes[j]);
    }
    SortAscends(normalized);
    forall d ensures d in normalized <==> 0 <= d < rank && mask[d] {
      if d in normalized {
        var i :| 0 <= i < |normalized| && normalized[i] == d;
        assert Wrap(rank, axes[i]) == d;
      }
      if 0 <= d < rank && mask[d] {
        var i :| 0 <= i < |axes| && Wrap(rank, axes[i]) == d;
        assert normalized[i] == d;
      }
    }
    hide SortAxes;
    SortedIsMarked(SortAxes(normalized), mask);
  }

  lemma FlagMeans(mask: seq<bool>, sorted: seq<nat>, trailing: bool)
    requires sorted == Marked(mask)
    requires var first := |mask| - |sorted|; trailing <==> forall i :: 0 <= i < |sorted| ==> sorted[i] == first + i
    ensures |sorted| <= |mask| && (trailing <==> Trailing(mask, |mask| - |sorted|))
  {
    hide Marked, Trailing;
    if trailing {
      MarkedTrailing(mask);
    }
    if Trailing(mask, |mask| - |sorted|) {
      TrailingMarked(mask, |mask| - |sorted|);
    }
  }

  lemma FlaggedPairs(shape: seq<nat>, strides: seq<nat>, it: Reduction, keepdim: bool, first: nat)
    requires |it.mask| == |shape| == |strides| && it.outputShape == OutputShape(shape, it.mask, keepdim) && it.reductionShape == Part(shape, it.mask, true)
    requires it.contiguous ==> strides == RowMajor(shape) && Trailing(it.mask, first)
    ensures it.contiguous ==> forall o: nat, r: nat | o < Numel(it.outputShape) && r < Numel(it.reductionShape) ::
      PairOffset(shape, strides, it.mask, o, r) == o * Numel(it.reductionShape) + r
  {
    hide Numel, Part, OutputShape, PairOffset, Trailing, RowMajor, ContiguousFrom;
    OutputSize(shape, it.mask, keepdim);
    if it.contiguous {
      forall o: nat, r: nat | o < Numel(it.outputShape) && r < Numel(it.reductionShape)
        ensures PairOffset(shape, strides, it.mask, o, r) == o * Numel(it.reductionShape) + r
      {
        CombineInRange(shape, it.mask, o, r);
        RowMajorContiguous(shape);
        ContiguousReduction(shape, strides, it.mask, first, o, r);
      }
    }
  }
}
