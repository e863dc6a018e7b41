/** The staged metadata of a batch append (examples/serving_scheduler/native/paged_kv_cache.h): what evicting a snapshot,
    adding a page and replacing a shared tail keep. */
module ServingStage {
  import opened Prelude
  import opened PageKeys
  import opened KvPool

  type Block = seq<(seq<real>, seq<real>)>

  /** Block tables and lengths of live sequences, and snapshots of published prefixes, over one counted pool. */
  datatype Stage = Stage(pool: Pool, tables: map<int, seq<nat>>, lengths: map<int, nat>, prefixes: map<seq<int>, seq<nat>>)

  ghost function Held(s: Stage): multiset<nat> {
    Bag(s.tables) + Bag(s.prefixes)
  }

  // ---- Forward release ----

  /** Drops one lease per page, first page first. */
  function UnrefEach(p: Pool, pages: seq<nat>): (r: Pool)
    ensures |r.refs| == |p.refs|
    decreases |pages|
  {
    if pages == [] then p else UnrefEach(Unref(p, pages[0]), pages[1..])
  }

  lemma {:induction false} UnrefEachCounts(p: Pool, held: multiset<nat>, pages: seq<nat>)
    requires Counts(p, held) && multiset(pages) <= held
    ensures Counts(UnrefEach(p, pages), held - multiset(pages))
    decreases |pages|
  {
    hide Counts;
    if pages == [] {
      assert held - multiset(pages) == held;
    } else {
      assert pages == [pages[0]] + pages[1..];
      MultisetCons(pages[0], pages[1..]);
      UnrefCounts(p, held, pages[0]);
      UnrefEachCounts(Unref(p, pages[0]), held - multiset{pages[0]}, pages[1..]);
      assert held - multiset{pages[0]} - multiset(pages[1..]) == held - multiset(pages);
    }
  }

  // ---- What a batch keeps ----

  /** The pages of the first `n` tokens hold what they held, wherever they are now. */
  ghost predicate Same(mem0: seq<Block>, table0: seq<nat>, mem: seq<Block>, table: seq<nat>, n: nat, size: nat)
    requires size > 0
  {
    && PageCount(n, size) <= |table0| && PageCount(n, size) <= |table|
    && forall j :: 0 <= j < PageCount(n, size) ==> SamePage(mem0, table0[j], mem, table[j])
  }

  ghost predicate SamePage(mem0: seq<Block>, b0: nat, mem: seq<Block>, b: nat) {
    b0 < |mem0| && b < |mem| && mem[b] == mem0[b0]
  }

  /** Every live table and every surviving snapshot still reads the same. */
  ghost predicate Preserved(s0: Stage, mem0: seq<Block>, s: Stage, mem: seq<Block>, size: nat)
    requires size > 0
  {
    && (forall id :: id in s0.tables ==> id in s0.lengths && id in s.tables && Same(mem0, s0.tables[id], mem, s.tables[id], s0.lengths[id], size))
    && (forall k :: k in s.prefixes ==> k in s0.prefixes && s.prefixes[k] == s0.prefixes[k] && Same(mem0, s0.prefixes[k], mem, s.prefixes[k], |k|, size))
  }

  /** First page a grown sequence may write. */
  function FirstNew(s0: Stage, id: int, size: nat): nat
    requires size > 0
  {
    if id in s0.lengths then s0.lengths[id] / size else 0
  }

  /** From page `from` on, nobody else holds the pages of this table. */
  ghost predicate Writable(held: multiset<nat>, table: seq<nat>, from: nat) {
    forall j :: from <= j < |table| ==> held[table[j]] == 1
  }

  ghost predicate AllWritable(s0: Stage, s: Stage, grown: set<int>, size: nat)
    requires size > 0
  {
    forall id :: id in grown ==> id in s.tables && Writable(Held(s), s.tables[id], FirstNew(s0, id, size))
  }

  /** The invariant of a batch in progress. */
  ghost predicate Staged(s0: Stage, mem0: seq<Block>, s: Stage, mem: seq<Block>, grown: set<int>, size: nat)
    requires size > 0
  {
    && Counts(s.pool, Held(s)) && |s.pool.refs| == |mem|
    && Preserved(s0, mem0, s, mem, size) && AllWritable(s0, s, grown, size)
  }

  // ---- Eviction ----

  function Evict(s: Stage, k: seq<int>): Stage
    requires k in s.prefixes
  {
    s.(pool := UnrefEach(s.pool, s.prefixes[k]), prefixes := s.prefixes - {k})
  }

  lemma HeldEvicted(s: Stage, k: seq<int>)
    requires k in s.prefixes
    ensures Held(s) == Held(Evict(s, k)) + multiset(s.prefixes[k])
  {
    BagRemove(s.prefixes, k);
  }

  lemma TableCounted(s: Stage, id: int, j: nat)
    requires id in s.tables && j < |s.tables[id]|
    ensures Held(s)[s.tables[id][j]] >= Bag(s.tables)[s.tables[id][j]] >= 1
  {
    BagRemove(s.tables, id);
    assert s.tables[id][j] in multiset(s.tables[id]);
    hide Bag;
  }

  lemma EvictStaged(s0: Stage, mem0: seq<Block>, s: Stage, mem: seq<Block>, grown: set<int>, size: nat, k: seq<int>)
    requires size > 0 && Staged(s0, mem0, s, mem, grown, size) && k in s.prefixes
    ensures Staged(s0, mem0, Evict(s, k), mem, grown, size)
  {
    hide Counts, Held, Same, PageCount;
    var t := Evict(s, k);
    HeldEvicted(s, k);
    UnrefEachCounts(s.pool, Held(s), s.prefixes[k]);
    assert Held(s) - multiset(s.prefixes[k]) == Held(t);
    forall id | id in grown ensures id in t.tables && Writable(Held(t), t.tables[id], FirstNew(s0, id, size)) {
      forall j | FirstNew(s0, id, size) <= j < |t.tables[id]| ensures Held(t)[t.tables[id][j]] == 1 {
        TableCounted(t, id, j);
      }
    }
  }

  // ---- A new page at the end of a table ----

  function Push(s: Stage, id: int): Stage
    requires id in s.tables && s.pool.free != []
  {
    s.(pool := Allocate(s.pool), tables := s.tables[id := s.tables[id] + [s.pool.free[|s.pool.free| - 1]]])
  }

  lemma HeldPushed(s: Stage, id: int)
    requires id in s.tables && s.pool.free != []
    ensures Held(Push(s, id)) == Held(s) + multiset{s.pool.free[|s.pool.free| - 1]}
  {
    var b := s.pool.free[|s.pool.free| - 1];
    BagUpdate(s.tables, id, s.tables[id] + [b]);
    hide Bag;
    PushAlgebra(Bag(Push(s, id).tables), Bag(s.tables), multiset(s.tables[id]), b, Bag(s.prefixes));
  }

  lemma PushAlgebra(after: multiset<nat>, before: multiset<nat>, table: multiset<nat>, b: nat, rest: multiset<nat>)
    requires after + table == before + (table + multiset{b})
    ensures after + rest == before + rest + multiset{b}
  {
    Cancel(after, before + multiset{b}, table);
  }

  lemma FreshPage(s: Stage)
    requires Counts(s.pool, Held(s)) && s.pool.free != []
    ensures var b := s.pool.free[|s.pool.free| - 1]; b < |s.pool.refs| && Held(s)[b] == 0
  {
    AllocateCounts(s.pool, Held(s));
  }

  lemma PushStaged(s0: Stage, mem0: seq<Block>, s: Stage, mem: seq<Block>, grown: set<int>, size: nat, id: int)
    requires size > 0 && Staged(s0, mem0, s, mem, grown, size) && id in s.tables && s.pool.free != []
    requires id in grown || Writable(Held(s), s.tables[id], FirstNew(s0, id, size))
    ensures Staged(s0, mem0, Push(s, id), mem, grown + {id}, size)
  {
    hide Counts, Held, PageCount, Same, Allocate, Writable;
    var b := s.pool.free[|s.pool.free| - 1];
    AllocateCounts(s.pool, Held(s));
    HeldPushed(s, id);
    FreshPage(s);
    var t := Push(s, id);
    forall x | x in grown + {id} ensures x in t.tables && Writable(Held(t), t.tables[x], FirstNew(s0, x, size)) {
      PushWritable(Held(s), s.tables[x], b, FirstNew(s0, x, size));
    }
    forall x | x in s0.tables ensures x in t.tables && Same(mem0, s0.tables[x], mem, t.tables[x], s0.lengths[x], size) {
      LongerSame(mem0, s0.tables[x], mem, s.tables[x], b, s0.lengths[x], size);
    }
  }

  lemma LongerSame(mem0: seq<Block>, table0: seq<nat>, mem: seq<Block>, table: seq<nat>, b: nat, n: nat, size: nat)
    requires size > 0 && Same(mem0, table0, mem, table, n, size)
    ensures Same(mem0, table0, mem, table + [b], n, size)
  {
    hide PageCount;
  }

  lemma PushWritable(held: multiset<nat>, table: seq<nat>, b: nat, from: nat)
    requires Writable(held, table, from) && held[b] == 0
    ensures Writable(held + multiset{b}, table, from) && Writable(held + multiset{b}, table + [b], from)
  {
    var t := table + [b];
    forall j | from <= j < |t| ensures (held + multiset{b})[t[j]] == 1 {
      if j < |table| {
        assert held[table[j]] == 1 && table[j] != b;
      }
    }
    forall j | from <= j < |table| ensures (held + multiset{b})[table[j]] == 1 {
      assert held[table[j]] == 1 && table[j] != b;
    }
  }

  // ---- A private copy of a shared tail ----

  function CopyTail(s: Stage, id: int): Stage
    requires id in s.tables && s.tables[id] != [] && s.pool.free != []
  {
    var table := s.tables[id];
    var tail, b := table[|table| - 1], s.pool.free[|s.pool.free| - 1];
    s.(pool := Unref(Allocate(s.pool), tail), tables := s.tables[id := table[|table| - 1 := b]])
  }

  lemma HeldCopied(s: Stage, id: int)
    requires id in s.tables && s.tables[id] != [] && s.pool.free != []
    ensures var tail, b := s.tables[id][|s.tables[id]| - 1], s.pool.free[|s.pool.free| - 1];
      Held(CopyTail(s, id)) + multiset{tail} == Held(s) + multiset{b}
  {
    hide Bag, Unref, Allocate;
    var table := s.tables[id];
    var n := |table| - 1;
    var tail, b := table[n], s.pool.free[|s.pool.free| - 1];
    BagUpdate(s.tables, id, table[n := b]);
    assert table == table[..n] + [tail] && table[n := b] == table[..n] + [b];
    CopyAlgebra(Bag(CopyTail(s, id).tables), Bag(s.tables), multiset(table[..n]), tail, b, Bag(s.prefixes));
  }

  lemma CopyAlgebra(after: multiset<nat>, before: multiset<nat>, front: multiset<nat>, tail: nat, b: nat, rest: multiset<nat>)
    requires after + (front + multiset{tail}) == before + (front + multiset{b})
    ensures after + rest + multiset{tail} == before + rest + multiset{b}
  {
    assert after + multiset{tail} + front == after + (front + multiset{tail});
    assert before + multiset{b} + front == before + (front + multiset{b});
    Cancel(after + multiset{tail}, before + multiset{b}, front);
    assert after + rest + multiset{tail} == after + multiset{tail} + rest;
    assert before + rest + multiset{b} == before + multiset{b} + rest;
  }

  /** The payload after the copy of a tail into a page nobody holds. */
  function CopyBlock(mem: seq<Block>, source: nat, destination: nat): (r: seq<Block>)
    requires source < |mem| && destination < |mem|
    ensures |r| == |mem|
  {
    mem[destination := mem[source]]
  }

  lemma CopyKeeps(mem0: seq<Block>, table0: seq<nat>, mem: seq<Block>, table: seq<nat>, n: nat, size: nat, source: nat, destination: nat)
    requires size > 0 && Same(mem0, table0, mem, table, n, size) && source < |mem| && destination < |mem|
    requires forall j :: 0 <= j < |table| ==> table[j] != destination
    ensures Same(mem0, table0, CopyBlock(mem, source, destination), table, n, size)
    ensures table != [] && table[|table| - 1] == source ==> Same(mem0, table0, CopyBlock(mem, source, destination), table[|table| - 1 := destination], n, size)
  {
    hide PageCount;
  }

  lemma SnapshotCounted(s: Stage, k: seq<int>, j: nat)
    requires k in s.prefixes && j < |s.prefixes[k]|
    ensures s.prefixes[k][j] in Held(s)
  {
    BagRemove(s.prefixes, k);
    assert s.prefixes[k][j] in multiset(s.prefixes[k]);
    hide Bag;
  }

  lemma CopyCounts(s: Stage, id: int)
    requires Counts(s.pool, Held(s)) && id in s.tables && s.tables[id] != [] && s.pool.free != []
    ensures Counts(CopyTail(s, id).pool, Held(CopyTail(s, id)))
  {
    hide Counts, Held, Unref, Allocate;
    var table := s.tables[id];
    var tail, b := table[|table| - 1], s.pool.free[|s.pool.free| - 1];
    AllocateCounts(s.pool, Held(s));
    TableCounted(s, id, |table| - 1);
    HeldCopied(s, id);
    assert tail in Held(s) + multiset{b};
    UnrefCounts(Allocate(s.pool), Held(s) + multiset{b}, tail);
    assert Held(s) + multiset{b} - multiset{tail} == Held(CopyTail(s, id));
  }

  /** A shared tail is replaced: the sequence reads the same from its private copy, and nobody else notices. */
  lemma CopyStaged(s0: Stage, mem0: seq<Block>, s: Stage, mem: seq<Block>, grown: set<int>, size: nat, id: int)
    requires size > 0 && Staged(s0, mem0, s, mem, grown, size) && id in s.tables && s.tables[id] != [] && s.pool.free != [] && id !in grown
    requires Held(s)[s.tables[id][|s.tables[id]| - 1]] > 1 && FirstNew(s0, id, size) + 1 == |s.tables[id]|
    ensures var tail, b := s.tables[id][|s.tables[id]| - 1], s.pool.free[|s.pool.free| - 1];
      && tail < |mem| && b < |mem| && Staged(s0, mem0, CopyTail(s, id), CopyBlock(mem, tail, b), grown + {id}, size)
  {
    hide Counts, Held, PageCount, Same, CopyBlock, Unref, Allocate, Writable;
    var table := s.tables[id];
    var tail, b := table[|table| - 1], s.pool.free[|s.pool.free| - 1];
    CopyCounts(s, id);
    HeldCopied(s, id);
    FreshPage(s);
    TableCounted(s, id, |table| - 1);
    HeldInPool(s, tail);
    var t, after := CopyTail(s, id), CopyBlock(mem, tail, b);
    forall x | x in grown + {id} ensures x in t.tables && Writable(Held(t), t.tables[x], FirstNew(s0, x, size)) {
      CopyWritable(Held(s), Held(t), s.tables[x], tail, b, FirstNew(s0, x, size), x == id);
    }
    forall x | x in s0.tables ensures x in t.tables && Same(mem0, s0.tables[x], after, t.tables[x], s0.lengths[x], size) {
      AvoidsFresh(s, x, b);
      CopyKeeps(mem0, s0.tables[x], mem, s.tables[x], s0.lengths[x], size, tail, b);
    }
    forall k | k in t.prefixes ensures Same(mem0, s0.prefixes[k], after, t.prefixes[k], |k|, size) {
      SnapshotAvoidsFresh(s, k, b);
      CopyKeeps(mem0, s0.prefixes[k], mem, s.prefixes[k], |k|, size, tail, b);
    }
  }

  lemma HeldInPool(s: Stage, b: nat)
    requires Counts(s.pool, Held(s)) && Held(s)[b] > 0
    ensures b < |s.pool.refs| && s.pool.refs[b] == Held(s)[b]
  {
    assert b in Held(s);
  }

  lemma AvoidsFresh(s: Stage, id: int, b: nat)
    requires id in s.tables && Held(s)[b] == 0
    ensures forall j :: 0 <= j < |s.tables[id]| ==> s.tables[id][j] != b
  {
    hide Held;
    forall j | 0 <= j < |s.tables[id]| ensures s.tables[id][j] != b {
      TableCounted(s, id, j);
    }
  }

  lemma SnapshotAvoidsFresh(s: Stage, k: seq<int>, b: nat)
    requires k in s.prefixes && Held(s)[b] == 0
    ensures forall j :: 0 <= j < |s.prefixes[k]| ==> s.prefixes[k][j] != b
  {
    hide Held;
    forall j | 0 <= j < |s.prefixes[k]| ensures s.prefixes[k][j] != b {
      SnapshotCounted(s, k, j);
    }
  }

  lemma CopyWritable(held: multiset<nat>, held': multiset<nat>, table: seq<nat>, tail: nat, b: nat, from: nat, own: bool)
    requires held' + multiset{tail} == held + multiset{b} && held[b] == 0 && held[tail] > 1
    requires if own then table != [] && from + 1 == |table| && table[|table| - 1] == tail else Writable(held, table, from)
    ensures Writable(held', if own then table[|table| - 1 := b] else table, from)
  {
    var t := if own then table[|table| - 1 := b] else table;
    forall j | from <= j < |t| ensures held'[t[j]] == 1 {
      assert (held' + multiset{tail})[t[j]] == (held + multiset{b})[t[j]];
      if !own {
        assert held[table[j]] == 1;
      }
    }
  }

  // ---- The batch ----

  /** Every table and snapshot has exactly the pages its tokens need. */
  ghost predicate Shaped(s: Stage, size: nat)
    requires size > 0
  {
    && s.tables.Keys == s.lengths.Keys
    && (forall id :: id in s.tables ==> |s.tables[id]| == PageCount(s.lengths[id], size))
    && (forall k :: k in s.prefixes ==> |s.prefixes[k]| == PageCount(|k|, size))
  }

  function LengthOf(s: Stage, id: int): nat {
    if id in s.lengths then s.lengths[id] else 0
  }

  /** Sequences the batch has not grown are as they were. */
  ghost predicate Untouched(s0: Stage, s: Stage, grown: set<int>) {
    forall id :: id in s.lengths && id !in grown ==> s.lengths[id] == LengthOf(s0, id)
  }

  ghost predicate InBatch(s0: Stage, mem0: seq<Block>, s: Stage, mem: seq<Block>, grown: set<int>, size: nat)
    requires size > 0
  {
    Staged(s0, mem0, s, mem, grown, size) && Shaped(s, size) && Untouched(s0, s, grown)
  }

  lemma StartBatch(s: Stage, mem: seq<Block>, size: nat)
    requires size > 0 && Shaped(s, size) && Counts(s.pool, Held(s)) && |s.pool.refs| == |mem|
    ensures InBatch(s, mem, s, mem, {}, size)
  {
    hide PageCount, Held;
    forall id | id in s.tables ensures Same(mem, s.tables[id], mem, s.tables[id], s.lengths[id], size) {
      TableInPool(s, mem, id);
    }
    forall k | k in s.prefixes ensures Same(mem, s.prefixes[k], mem, s.prefixes[k], |k|, size) {
      SnapshotInPool(s, mem, k);
    }
  }

  lemma TableInPool(s: Stage, mem: seq<Block>, id: int)
    requires Counts(s.pool, Held(s)) && |s.pool.refs| == |mem| && id in s.tables
    ensures Within(s.tables[id], |mem|)
  {
    hide Held, Counts;
    forall j | 0 <= j < |s.tables[id]| ensures s.tables[id][j] < |mem| {
      TableCounted(s, id, j);
      HeldInPool(s, s.tables[id][j]);
    }
  }

  lemma SnapshotInPool(s: Stage, mem: seq<Block>, k: seq<int>)
    requires Counts(s.pool, Held(s)) && |s.pool.refs| == |mem| && k in s.prefixes
    ensures Within(s.prefixes[k], |mem|)
  {
    hide Held, Counts;
    forall j | 0 <= j < |s.prefixes[k]| ensures s.prefixes[k][j] < |mem| {
      SnapshotCounted(s, k, j);
      HeldInPool(s, s.prefixes[k][j]);
    }
  }
}
