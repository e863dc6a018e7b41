/** Physical layout of one K or V pool (KvBlockPool::offset, KVManager::Append::copy_shared_tail): a flat buffer
    indexed by page, layer, slot and channel. */
module KvLayout {
  import opened Arithmetic
  import opened Buffers

  /** Pages, layers, slots per page and channels per slot. */
  datatype Grid = Grid(blocks: nat, layers: nat, slots: nat, width: nat)

  predicate InGrid(g: Grid, b: nat, layer: nat, slot: nat) {
    b < g.blocks && layer < g.layers && slot < g.slots
  }

  /** First element of a slot. */
  function Offset(g: Grid, b: nat, layer: nat, slot: nat): nat {
    ((b * g.layers + layer) * g.slots + slot) * g.width
  }

  function Elements(g: Grid): nat {
    g.blocks * g.layers * g.slots * g.width
  }

  // ---- Mixed-radix arithmetic ----

  lemma DigitBound(a: nat, n: nat, i: nat, size: nat)
    requires a < n && i < size
    ensures a * size + i < n * size
  {
    MulMonotone(a + 1, n, size);
    MulMonotone(a, a, size);
  }

  lemma DigitUnique(a: nat, b: nat, i: nat, j: nat, size: nat)
    requires i < size && j < size && a * size + i == b * size + j
    ensures a == b && i == j
  {
    QuotientUnique(a * size + i, size, a);
    QuotientUnique(a * size + i, size, b);
  }

  /** A slot lies inside the buffer. */
  lemma OffsetInBounds(g: Grid, b: nat, layer: nat, slot: nat)
    requires InGrid(g, b, layer, slot)
    ensures Offset(g, b, layer, slot) + g.width <= Elements(g)
  {
    DigitBound(b, g.blocks, layer, g.layers);
    var x := b * g.layers + layer;
    var rows := g.blocks * g.layers;
    DigitBound(x, rows, slot, g.slots);
    var y := x * g.slots + slot;
    var cells := rows * g.slots;
    hide *;
    MulMonotone(y + 1, cells, g.width);
    MulMonotone(y, y, g.width);
    Unfolded(g, b, layer, slot);
  }

  lemma Unfolded(g: Grid, b: nat, layer: nat, slot: nat)
    ensures Offset(g, b, layer, slot) == ((b * g.layers + layer) * g.slots + slot) * g.width
    ensures Elements(g) == g.blocks * g.layers * g.slots * g.width
  {
  }

  /** Different page, layer, slot or channel, different element. */
  lemma OffsetInjective(g: Grid, b: nat, layer: nat, slot: nat, c: nat, b': nat, layer': nat, slot': nat, c': nat)
    requires InGrid(g, b, layer, slot) && InGrid(g, b', layer', slot') && c < g.width && c' < g.width
    requires Offset(g, b, layer, slot) + c == Offset(g, b', layer', slot') + c'
    ensures b == b' && layer == layer' && slot == slot' && c == c'
  {
    OffsetMixed(g, b, layer, slot, c);
    OffsetMixed(g, b', layer', slot', c');
    hide Offset, Place;
    MixUnique(Place(Place(b, g.layers, layer), g.slots, slot), Place(Place(b', g.layers, layer'), g.slots, slot'), c, c', g.width);
    MixUnique(Place(b, g.layers, layer), Place(b', g.layers, layer'), slot, slot', g.slots);
    MixUnique(b, b', layer, layer', g.layers);
  }

  lemma MixUnique(a: nat, b: nat, i: nat, j: nat, size: nat)
    requires i < size && j < size && Place(a, size, i) == Place(b, size, j)
    ensures a == b && i == j
  {
    DigitUnique(a, b, i, j, size);
  }

  lemma OffsetMixed(g: Grid, b: nat, layer: nat, slot: nat, c: nat)
    ensures Offset(g, b, layer, slot) + c == Place(Place(Place(b, g.layers, layer), g.slots, slot), g.width, c)
  {
  }

  // ---- Reading and writing slots ----

  type Row = seq<seq<real>>

  predicate RowShape(g: Grid, row: Row) {
    |row| == g.layers && forall l :: 0 <= l < |row| ==> |row[l]| == g.width
  }

  /** Channels of one layer of one slot. */
  function LayerOf(data: seq<real>, g: Grid, b: nat, layer: nat, slot: nat): (r: seq<real>)
    requires InGrid(g, b, layer, slot) && |data| == Elements(g)
    ensures |r| == g.width
  {
    OffsetInBounds(g, b, layer, slot);
    data[Offset(g, b, layer, slot)..Offset(g, b, layer, slot) + g.width]
  }

  /** The row of one slot, all layers. */
  function RowOf(data: seq<real>, g: Grid, b: nat, slot: nat): (r: Row)
    requires b < g.blocks && slot < g.slots && |data| == Elements(g)
    ensures RowShape(g, r)
  {
    seq(g.layers, l requires 0 <= l < g.layers => LayerOf(data, g, b, l, slot))
  }

  /** Writing one layer of one slot changes that layer of that slot and nothing else. */
  lemma SlotWritten(g: Grid, before: seq<real>, after: seq<real>, b: nat, layer: nat, slot: nat, run: seq<real>, b': nat, layer': nat, slot': nat)
    requires InGrid(g, b, layer, slot) && InGrid(g, b', layer', slot') && |before| == Elements(g) && |run| == g.width
    requires RunWritten(before, after, Offset(g, b, layer, slot), run)
    ensures LayerOf(after, g, b', layer', slot') == if b' == b && layer' == layer && slot' == slot then run else LayerOf(before, g, b', layer', slot')
  {
    var start, place := Offset(g, b, layer, slot), Offset(g, b', layer', slot');
    OffsetInBounds(g, b', layer', slot');
    var got := LayerOf(after, g, b', layer', slot');
    var same := b' == b && layer' == layer && slot' == slot;
    forall c: nat | c < g.width ensures got[c] == if same then run[c] else before[place + c] {
      hide Offset, RunWritten;
      RunAt(before, after, start, run, place + c);
      if start <= place + c < start + g.width {
        OffsetInjective(g, b', layer', slot', c, b, layer, slot, place + c - start);
      }
    }
    hide Offset, RunWritten;
  }

  // ---- The strided tail copy ----

  lemma SlotOffset(g: Grid, b: nat, layer: nat, slot: nat)
    ensures Offset(g, b, layer, slot) == Offset(g, b, layer, 0) + slot * g.width
    ensures Offset(g, b, layer, 0) == b * g.layers * (g.slots * g.width) + layer * (g.slots * g.width)
  {
    var x := b * g.layers + layer;
    Distribute(x * g.slots, slot, g.width);
    assert x * g.slots * g.width == x * (g.slots * g.width) by {
      Associate(x, g.slots, g.width);
    }
    Distribute(b * g.layers, layer, g.slots * g.width);
  }

  lemma Distribute(a: nat, b: nat, c: nat)
    ensures (a + b) * c == a * c + b * c
  {
  }

  lemma Associate(a: nat, b: nat, c: nat)
    ensures a * b * c == a * (b * c)
  {
  }

  /** Element `k` of the first `valid` slots of a page row. */
  lemma RegionCell(g: Grid, b: nat, layer: nat, valid: nat, size: nat, k: nat) returns (slot: nat, c: nat)
    requires size == valid * g.width && k < size
    ensures slot < valid && c < g.width && Offset(g, b, layer, slot) + c == Offset(g, b, layer, 0) + k
  {
    PositiveWidth(valid, g.width);
    DivisionBounds(k, g.width);
    slot := k / g.width;
    c := k - slot * g.width;
    SlotBelow(slot, valid, k, g.width);
    SlotOffset(g, b, layer, slot);
    hide Offset;
  }

  lemma PositiveWidth(valid: nat, width: nat)
    requires valid * width > 0
    ensures width > 0
  {
  }

  lemma CellInRegion(g: Grid, b: nat, layer: nat, valid: nat, size: nat, slot: nat, c: nat)
    requires size == valid * g.width && slot < valid && c < g.width
    ensures Offset(g, b, layer, 0) <= Offset(g, b, layer, slot) + c < Offset(g, b, layer, 0) + size
  {
    SlotOffset(g, b, layer, slot);
    hide Offset;
    DigitBound(slot, valid, c, g.width);
  }

  /** An element lies in the first `valid` slots of a page row exactly when its own coordinates say so. */
  lemma InRegion(g: Grid, b: nat, layer: nat, valid: nat, size: nat, b': nat, layer': nat, slot': nat, c: nat)
    requires InGrid(g, b', layer', slot') && b < g.blocks && layer < g.layers && valid <= g.slots && c < g.width && size == valid * g.width
    ensures Offset(g, b, layer, 0) <= Offset(g, b', layer', slot') + c < Offset(g, b, layer, 0) + size <==>
      b' == b && layer' == layer && slot' < valid
  {
    hide Offset;
    var start, place := Offset(g, b, layer, 0), Offset(g, b', layer', slot') + c;
    if start <= place < start + size {
      var s, r := RegionCell(g, b, layer, valid, size, place - start);
      OffsetInjective(g, b', layer', slot', c, b, layer, s, r);
    }
    if b' == b && layer' == layer && slot' < valid {
      CellInRegion(g, b, layer, valid, size, slot', c);
    }
  }

  lemma SlotBelow(s: nat, valid: nat, k: nat, width: nat)
    requires s * width <= k < valid * width
    ensures s < valid
  {
    MulMonotone(valid, s, width);
  }

  /** One row of the region copy moves the first `valid` slots of one layer of the source page and nothing else. */
  lemma RegionRow(g: Grid, before: seq<real>, after: seq<real>, destination: nat, source: nat, layer: nat, valid: nat, run: seq<real>, b': nat, layer': nat, slot': nat)
    requires InGrid(g, b', layer', slot') && |before| == Elements(g) && layer < g.layers && valid <= g.slots
    requires destination < g.blocks && source < g.blocks && |run| == valid * g.width
    requires Offset(g, source, layer, 0) + |run| <= |before| && run == before[Offset(g, source, layer, 0)..Offset(g, source, layer, 0) + |run|]
    requires RunWritten(before, after, Offset(g, destination, layer, 0), run)
    ensures LayerOf(after, g, b', layer', slot') ==
      if b' == destination && layer' == layer && slot' < valid then LayerOf(before, g, source, layer, slot') else LayerOf(before, g, b', layer', slot')
  {
    var start, place := Offset(g, destination, layer, 0), Offset(g, b', layer', slot');
    OffsetInBounds(g, b', layer', slot');
    OffsetInBounds(g, source, layer, slot');
    SlotOffset(g, source, layer, slot');
    SlotOffset(g, destination, layer, slot');
    var got := LayerOf(after, g, b', layer', slot');
    var moved := b' == destination && layer' == layer && slot' < valid;
    hide Offset, RunWritten;
    forall c: nat | c < g.width
      ensures got[c] == if moved then LayerOf(before, g, source, layer, slot')[c] else before[place + c]
    {
      RunAt(before, after, start, run, place + c);
      InRegion(g, destination, layer, valid, |run|, b', layer', slot', c);
    }
  }

  /** The first `valid` slots of the destination page, in the first `rows` layers, are those of the source page. */
  ghost predicate TailMoved(g: Grid, before: seq<real>, after: seq<real>, destination: nat, source: nat, valid: nat, rows: nat)
    requires |before| == Elements(g) && |after| == Elements(g) && source < g.blocks
  {
    forall b: nat, l: nat, s: nat | InGrid(g, b, l, s) ::
      LayerOf(after, g, b, l, s) ==
        if b == destination && l < rows && s < valid then LayerOf(before, g, source, l, s) else LayerOf(before, g, b, l, s)
  }

  lemma RegionStep(g: Grid, before: seq<real>, middle: seq<real>, after: seq<real>, destination: nat, source: nat, layer: nat, valid: nat, run: seq<real>)
    requires |before| == |middle| == |after| == Elements(g) && layer < g.layers && valid <= g.slots
    requires destination < g.blocks && source < g.blocks && |run| == valid * g.width
    requires Offset(g, source, layer, 0) + |run| <= |middle| && run == middle[Offset(g, source, layer, 0)..Offset(g, source, layer, 0) + |run|]
    requires RunWritten(middle, after, Offset(g, destination, layer, 0), run)
    requires TailMoved(g, before, middle, destination, source, valid, layer)
    ensures TailMoved(g, before, after, destination, source, valid, layer + 1)
  {
    hide Offset, RunWritten, LayerOf;
    forall b: nat, l: nat, s: nat | InGrid(g, b, l, s)
      ensures LayerOf(after, g, b, l, s) ==
        if b == destination && l < layer + 1 && s < valid then LayerOf(before, g, source, l, s) else LayerOf(before, g, b, l, s)
    {
      RegionRow(g, middle, after, destination, source, layer, valid, run, b, l, s);
      assert InGrid(g, source, layer, s);
    }
  }

  lemma RegionInBounds(g: Grid, b: nat, layer: nat, valid: nat)
    requires b < g.blocks && layer < g.layers && valid <= g.slots
    ensures Offset(g, b, layer, 0) + valid * g.width <= Elements(g)
  {
    if valid > 0 {
      OffsetInBounds(g, b, layer, valid - 1);
      SlotOffset(g, b, layer, valid - 1);
      MulMonotone(valid, valid, g.width);
    } else if g.slots > 0 {
      OffsetInBounds(g, b, layer, 0);
    } else {
      EmptyGrid(g, b, layer);
    }
  }

  lemma EmptyGrid(g: Grid, b: nat, layer: nat)
    requires g.slots == 0
    ensures Offset(g, b, layer, 0) == 0
  {
  }

  // ---- Whole rows ----

  /** The row of one slot was replaced in its first `layers` layers. */
  ghost predicate RowWritten(g: Grid, before: seq<real>, after: seq<real>, b: nat, slot: nat, row: Row, layers: nat)
    requires |before| == Elements(g) && |after| == Elements(g) && RowShape(g, row)
  {
    forall b': nat, l: nat, s: nat | InGrid(g, b', l, s) ::
      LayerOf(after, g, b', l, s) == if b' == b && s == slot && l < layers then row[l] else LayerOf(before, g, b', l, s)
  }

  lemma RowStep(g: Grid, before: seq<real>, middle: seq<real>, after: seq<real>, b: nat, slot: nat, row: Row, layer: nat)
    requires |before| == |middle| == |after| == Elements(g) && RowShape(g, row) && InGrid(g, b, layer, slot)
    requires RowWritten(g, before, middle, b, slot, row, layer) && RunWritten(middle, after, Offset(g, b, layer, slot), row[layer])
    ensures RowWritten(g, before, after, b, slot, row, layer + 1)
  {
    hide Offset, RunWritten, LayerOf;
    forall b': nat, l: nat, s: nat | InGrid(g, b', l, s)
      ensures LayerOf(after, g, b', l, s) == if b' == b && s == slot && l < layer + 1 then row[l] else LayerOf(before, g, b', l, s)
    {
      SlotWritten(g, middle, after, b, layer, slot, row[layer], b', l, s);
    }
  }

  /** A written row is read back from its own slot; every other slot keeps its row. */
  lemma RowWrittenAt(g: Grid, before: seq<real>, after: seq<real>, b: nat, slot: nat, row: Row, b': nat, slot': nat)
    requires |before| == |after| == Elements(g) && RowShape(g, row) && RowWritten(g, before, after, b, slot, row, g.layers)
    requires b' < g.blocks && slot' < g.slots
    ensures RowOf(after, g, b', slot') == if b' == b && slot' == slot then row else RowOf(before, g, b', slot')
  {
    hide LayerOf;
    forall l: nat | l < g.layers
      ensures RowOf(after, g, b', slot')[l] == if b' == b && slot' == slot then row[l] else RowOf(before, g, b', slot')[l]
    {
      assert InGrid(g, b', l, slot');
    }
  }

  lemma TailMovedAt(g: Grid, before: seq<real>, after: seq<real>, destination: nat, source: nat, valid: nat, b: nat, slot: nat)
    requires |before| == |after| == Elements(g) && source < g.blocks && TailMoved(g, before, after, destination, source, valid, g.layers)
    requires b < g.blocks && slot < g.slots
    ensures RowOf(after, g, b, slot) == if b == destination && slot < valid then RowOf(before, g, source, slot) else RowOf(before, g, b, slot)
  {
    hide LayerOf;
    forall l: nat | l < g.layers
      ensures RowOf(after, g, b, slot)[l] == if b == destination && slot < valid then RowOf(before, g, source, slot)[l] else RowOf(before, g, b, slot)[l]
    {
      assert InGrid(g, b, l, slot);
    }
  }

  /** The row of one slot was replaced and nothing else changed. */
  ghost predicate RowPut(before: seq<real>, after: seq<real>, g: Grid, b: nat, slot: nat, row: Row)
    requires |before| == |after| == Elements(g)
  {
    forall x: nat, s: nat | x < g.blocks && s < g.slots ::
      RowOf(after, g, x, s) == if x == b && s == slot then row else RowOf(before, g, x, s)
  }

  /** The first `valid` slots of one page became those of another and nothing else changed. */
  ghost predicate TailPut(before: seq<real>, after: seq<real>, g: Grid, destination: nat, source: nat, valid: nat)
    requires |before| == |after| == Elements(g) && source < g.blocks
  {
    forall x: nat, s: nat | x < g.blocks && s < g.slots ::
      RowOf(after, g, x, s) == if x == destination && s < valid then RowOf(before, g, source, s) else RowOf(before, g, x, s)
  }

  /** The buffer of one pool. */
  class KvPayload {
    const g: Grid
    const data: array<real>

    ghost predicate Valid()
      reads this, data
    {
      data.Length == Elements(g)
    }

    constructor (g: Grid)
      ensures Valid() && this.g == g && fresh(data)
    {
      this.g := g;
      data := new real[Elements(g)];
    }

    /** Stores the row of one position, layer by layer. */
    method WriteRow(b: nat, slot: nat, row: Row)
      requires Valid() && b < g.blocks && slot < g.slots && RowShape(g, row)
      modifies data
      ensures Valid() && RowPut(old(data[..]), data[..], g, b, slot, row)
    {
      hide Offset, RunWritten, LayerOf, RowWritten, Elements;
      ghost var before := data[..];
      NothingWritten(g, before, b, slot, row);
      for layer := 0 to g.layers
        invariant RowWritten(g, before, data[..], b, slot, row, layer)
      {
        ghost var middle := data[..];
        OffsetInBounds(g, b, layer, slot);
        WriteRun(data, Offset(g, b, layer, slot), row[layer]);
        RowStep(g, before, middle, data[..], b, slot, row, layer);
      }
      forall b': nat, s: nat | b' < g.blocks && s < g.slots
        ensures RowOf(data[..], g, b', s) == if b' == b && s == slot then row else RowOf(before, g, b', s)
      {
        RowWrittenAt(g, before, data[..], b, slot, row, b', s);
      }
    }

    /** The row of one position, layer by layer. */
    method ReadRow(b: nat, slot: nat) returns (row: Row)
      requires Valid() && b < g.blocks && slot < g.slots
      ensures row == RowOf(data[..], g, b, slot)
    {
      hide Offset, Elements;
      row := [];
      for layer := 0 to g.layers
        invariant |row| == layer && row == RowOf(data[..], g, b, slot)[..layer]
      {
        OffsetInBounds(g, b, layer, slot);
        row := row + [data[Offset(g, b, layer, slot)..Offset(g, b, layer, slot) + g.width]];
      }
    }

    /** The strided region copy of a shared tail: `valid` slots of every layer of the page, and nothing else. */
    method CopyTail(destination: nat, source: nat, valid: nat)
      requires Valid() && destination < g.blocks && source < g.blocks && valid <= g.slots
      modifies data
      ensures Valid() && TailPut(old(data[..]), data[..], g, destination, source, valid)
    {
      var pitch := g.slots * g.width;
      var to, from := destination * g.layers * pitch, source * g.layers * pitch;
      hide Offset, RunWritten, LayerOf, TailMoved, Elements;
      ghost var before := data[..];
      NothingMoved(g, before, destination, source, valid);
      for layer := 0 to g.layers
        invariant TailMoved(g, before, data[..], destination, source, valid, layer)
      {
        ghost var middle := data[..];
        SlotOffset(g, source, layer, 0);
        SlotOffset(g, destination, layer, 0);
        RegionInBounds(g, source, layer, valid);
        RegionInBounds(g, destination, layer, valid);
        var run := data[from + layer * pitch..from + layer * pitch + valid * g.width];
        WriteRun(data, to + layer * pitch, run);
        RegionStep(g, before, middle, data[..], destination, source, layer, valid, run);
      }
      forall b: nat, s: nat | b < g.blocks && s < g.slots
        ensures RowOf(data[..], g, b, s) == if b == destination && s < valid then RowOf(before, g, source, s) else RowOf(before, g, b, s)
      {
        TailMovedAt(g, before, data[..], destination, source, valid, b, s);
      }
    }
  }

  lemma NothingWritten(g: Grid, data: seq<real>, b: nat, slot: nat, row: Row)
    requires |data| == Elements(g) && RowShape(g, row)
    ensures RowWritten(g, data, data, b, slot, row, 0)
  {
  }

  lemma NothingMoved(g: Grid, data: seq<real>, destination: nat, source: nat, valid: nat)
    requires |data| == Elements(g) && source < g.blocks
    ensures TailMoved(g, data, data, destination, source, valid, 0)
  {
  }
}
