/** The reference-counted page pool (miniprefix/src/kv/paged_kv.cpp). */
module KvPool {
  import opened Prelude

  /** `free` is used as a stack; `refs[b]` counts the leases on page `b`. */
  datatype Pool = Pool(free: seq<nat>, refs: seq<nat>)

  ghost predicate Within(s: seq<nat>, n: nat) {
    forall i :: 0 <= i < |s| ==> s[i] < n
  }

  /** Enough leases to drop every occurrence in `table`. */
  ghost predicate Covers(refs: seq<nat>, table: seq<nat>) {
    && Within(table, |refs|)
    && forall b :: 0 <= b < |refs| ==> refs[b] >= multiset(table)[b]
  }

  /** Every lease is accounted for by `held`, and the free list holds exactly the unleased pages, once each. */
  ghost predicate Counts(p: Pool, held: multiset<nat>) {
    && (forall b :: b in held ==> b < |p.refs|)
    && (forall b :: 0 <= b < |p.refs| ==> p.refs[b] == held[b])
    && (forall i :: 0 <= i < |p.free| ==> p.free[i] < |p.refs| && held[p.free[i]] == 0)
    && (forall b :: 0 <= b < |p.refs| && held[b] == 0 ==> b in p.free)
    && NoDuplicates(p.free)
  }

  /** Leases the page on top of the free stack; the identity when there is none. */
  function Allocate(p: Pool): (r: Pool)
    ensures |r.refs| == |p.refs|
  {
    if p.free == [] || p.free[|p.free| - 1] >= |p.refs| then p
    else Pool(p.free[..|p.free| - 1], p.refs[p.free[|p.free| - 1] := 1])
  }

  /** One more lease; the identity outside the pool. */
  function Retain(p: Pool, b: nat): (r: Pool)
    ensures |r.refs| == |p.refs| && r.free == p.free
  {
    if b < |p.refs| then p.(refs := p.refs[b := p.refs[b] + 1]) else p
  }

  /** One lease less, freeing the page with its last lease; the identity on a page without leases. */
  function Unref(p: Pool, b: nat): (r: Pool)
    ensures |r.refs| == |p.refs|
  {
    if b >= |p.refs| || p.refs[b] == 0 then p
    else if p.refs[b] == 1 then Pool(p.free + [b], p.refs[b := 0])
    else p.(refs := p.refs[b := p.refs[b] - 1])
  }

  /** Leases for a whole table, first page first. */
  function RetainAll(p: Pool, table: seq<nat>): (r: Pool)
    ensures |r.refs| == |p.refs|
    decreases |table|
  {
    if table == [] then p else RetainAll(Retain(p, table[0]), table[1..])
  }

  lemma CoversPrefix(p: Pool, table: seq<nat>)
    requires table != [] && Covers(p.refs, table)
    ensures table[|table| - 1] < |p.refs| && p.refs[table[|table| - 1]] > 0
    ensures Covers(Unref(p, table[|table| - 1]).refs, table[..|table| - 1])
  {
    MultisetSnoc(table);
  }

  /** Leases dropped from the back of a table, as `rollback` pops them. */
  function UnrefAll(p: Pool, table: seq<nat>): (r: Pool)
    ensures |r.refs| == |p.refs|
    decreases |table|
  {
    if table == [] then p
    else UnrefAll(Unref(p, table[|table| - 1]), table[..|table| - 1])
  }

  /** `n` pages taken from the free stack, in the order they are pushed on a table. */
  function Taken(p: Pool, n: nat): (r: seq<nat>)
    requires n <= |p.free|
    ensures |r| == n
  {
    seq(n, i requires 0 <= i < n => p.free[|p.free| - 1 - i])
  }

  function AllocateMany(p: Pool, n: nat): (r: Pool)
    ensures |r.refs| == |p.refs|
    decreases n
  {
    if n == 0 then p else AllocateMany(Allocate(p), n - 1)
  }

  lemma AllocateCounts(p: Pool, held: multiset<nat>)
    requires Counts(p, held) && p.free != []
    ensures p.free[|p.free| - 1] < |p.refs| && held[p.free[|p.free| - 1]] == 0
    ensures Counts(Allocate(p), held + multiset{p.free[|p.free| - 1]})
  {
    var n := |p.free| - 1;
    var b := p.free[n];
    var q, h := Allocate(p), held + multiset{b};
    forall x | 0 <= x < |q.refs| && h[x] == 0 ensures x in q.free {
      var i :| 0 <= i < |p.free| && p.free[i] == x;
      assert q.free[i] == x;
    }
  }

  lemma RetainCounts(p: Pool, held: multiset<nat>, b: nat)
    requires Counts(p, held) && b in held
    ensures Counts(Retain(p, b), held + multiset{b})
  {
  }

  lemma UnrefCounts(p: Pool, held: multiset<nat>, b: nat)
    requires Counts(p, held) && b in held
    ensures b < |p.refs| && p.refs[b] > 0 && Counts(Unref(p, b), held - multiset{b})
  {
    var q, h := Unref(p, b), held - multiset{b};
    forall x | 0 <= x < |q.refs| && h[x] == 0 ensures x in q.free {
      if x == b {
        assert q.free[|p.free|] == b;
      } else {
        assert x in p.free;
      }
    }
  }

  lemma {:induction false} RetainAllCounts(p: Pool, held: multiset<nat>, table: seq<nat>)
    requires Counts(p, held) && forall i :: 0 <= i < |table| ==> table[i] in held
    ensures Within(table, |p.refs|)
    ensures Counts(RetainAll(p, table), held + multiset(table))
    decreases |table|
  {
    assert Within(table, |p.refs|);
    if table != [] {
      RetainCounts(p, held, table[0]);
      RetainAllCounts(Retain(p, table[0]), held + multiset{table[0]}, table[1..]);
      assert table == [table[0]] + table[1..];
      AddCons(held, table[0], table[1..]);
    }
  }

  lemma CoversHeld(p: Pool, held: multiset<nat>, table: seq<nat>)
    requires Counts(p, held) && multiset(table) <= held
    ensures Covers(p.refs, table)
  {
    forall i | 0 <= i < |table| ensures table[i] < |p.refs| {
      assert table[i] in multiset(table);
    }
  }

  lemma {:induction false} UnrefAllCounts(p: Pool, held: multiset<nat>, table: seq<nat>)
    requires Counts(p, held) && multiset(table) <= held
    ensures Covers(p.refs, table)
    ensures Counts(UnrefAll(p, table), held - multiset(table))
    decreases |table|
  {
    CoversHeld(p, held, table);
    hide Counts;
    if table == [] {
      assert held - multiset(table) == held;
    } else {
      var n := |table| - 1;
      var b := table[n];
      MultisetSnoc(table);
      UnrefCounts(p, held, b);
      UnrefAllCounts(Unref(p, b), held - multiset{b}, table[..n]);
      assert held - multiset{b} - multiset(table[..n]) == held - multiset(table);
    }
  }

  lemma TakenFromFree(p: Pool, held: multiset<nat>, n: nat)
    requires Counts(p, held) && n <= |p.free|
    ensures Within(p.free, |p.refs|)
    ensures forall b :: b in Taken(p, n) ==> held[b] == 0
    ensures NoDuplicates(Taken(p, n))
  {
  }

  lemma TakenStep(p: Pool, n: nat)
    requires 0 < n <= |p.free| && Within(p.free, |p.refs|)
    ensures Taken(p, n) == [p.free[|p.free| - 1]] + Taken(Allocate(p), n - 1)
  {
  }

  lemma {:induction false} AllocateManyFree(p: Pool, n: nat)
    requires n <= |p.free| && Within(p.free, |p.refs|)
    ensures AllocateMany(p, n).free == p.free[..|p.free| - n]
    decreases n
  {
    if n > 0 {
      AllocateManyFree(Allocate(p), n - 1);
    }
  }

  lemma {:induction false} AllocateManyCounts(p: Pool, held: multiset<nat>, n: nat)
    requires Counts(p, held) && n <= |p.free|
    ensures Within(p.free, |p.refs|)
    ensures Counts(AllocateMany(p, n), held + multiset(Taken(p, n)))
    decreases n
  {
    TakenFromFree(p, held, n);
    if n == 0 {
      assert Taken(p, n) == [];
    } else {
      AllocateCounts(p, held);
      TakenStep(p, n);
      assert |Allocate(p).free| == |p.free| - 1;
      hide Counts, Within, Taken, Allocate;
      var b := p.free[|p.free| - 1];
      var rest := Taken(Allocate(p), n - 1);
      AllocateManyCounts(Allocate(p), held + multiset{b}, n - 1);
      AddCons(held, b, rest);
    }
  }

  /** Free pages and distinct held pages partition the pool. */
  lemma FreePlusDistinct(p: Pool, held: multiset<nat>)
    requires Counts(p, held)
    ensures |p.free| + |Support(held)| == |p.refs|
  {
    var f, h := Elements(p.free), Support(held);
    ElementsCardinality(p.free);
    var all := Identity(|p.refs|);
    ElementsCardinality(all);
    forall b | 0 <= b < |all| ensures b in Elements(all) {
      assert all[b] == b;
    }
    assert f !! h;
    assert f + h == Elements(all);
  }

  /** The pool object, shared by the prefix cache and the manager. */
  class KvBlockPool {
    var free: seq<nat>
    var references: seq<nat>

    ghost function View(): Pool
      reads this
    {
      Pool(free, references)
    }

    constructor (blocks: nat)
      ensures |references| == blocks
      ensures Counts(View(), multiset{})
    {
      var f: seq<nat> := [];
      var i := blocks;
      while i > 0
        invariant i <= blocks && |f| == blocks - i
        invariant forall k :: 0 <= k < |f| ==> f[k] == blocks - 1 - k
      {
        i := i - 1;
        f := f + [i];
      }
      free := f;
      references := seq(blocks, _ => 0);
      new;
      forall b | 0 <= b < blocks ensures b in free {
        assert free[blocks - 1 - b] == b;
      }
    }

    method AllocatePage() returns (r: Option<nat>)
      requires Within(free, |references|)
      modifies this
      ensures old(free) == [] ==> r == None && View() == old(View())
      ensures old(free) != [] ==> View() == Allocate(old(View())) && r == Some(old(free)[|old(free)| - 1])
    {
      if free == [] {
        return None;
      }
      var block := free[|free| - 1];
      free := free[..|free| - 1];
      references := references[block := 1];
      return Some(block);
    }

    method RetainPage(block: nat)
      requires block < |references|
      modifies this
      ensures View() == Retain(old(View()), block)
    {
      references := references[block := references[block] + 1];
    }

    method UnrefPage(block: nat)
      requires block < |references| && references[block] > 0
      modifies this
      ensures View() == Unref(old(View()), block)
    {
      references := references[block := references[block] - 1];
      if references[block] == 0 {
        free := free + [block];
      }
    }

    /** Pushes free pages on a table until it has `count`; refuses, unchanged, when there are too few. */
    method Reserve(table: seq<nat>, count: nat) returns (ok: bool, extended: seq<nat>)
      requires Within(free, |references|)
      modifies this
      ensures ok <==> count <= |table| + |old(free)|
      ensures !ok ==> View() == old(View()) && extended == table
      ensures ok && count <= |table| ==> View() == old(View()) && extended == table
      ensures ok && count > |table| ==>
        && View() == AllocateMany(old(View()), count - |table|)
        && extended == table + Taken(old(View()), count - |table|)
    {
      extended := table;
      if count <= |table| {
        return true, table;
      }
      if count - |table| > |free| {
        return false, table;
      }
      ghost var total := count - |table|;
      while |extended| < count
        invariant |table| <= |extended| <= count
        invariant count - |extended| <= |free|
        invariant Within(free, |references|)
        invariant |free| == |old(free)| - (|extended| - |table|) && free == old(free)[..|free|]
        invariant AllocateMany(View(), count - |extended|) == AllocateMany(old(View()), total)
        invariant extended == table + Taken(old(View()), total)[..|extended| - |table|]
      {
        var block := free[|free| - 1];
        assert Taken(old(View()), total)[|extended| - |table|] == block;
        extended := extended + [block];
        free := free[..|free| - 1];
        references := references[block := 1];
      }
      ok := true;
    }

    /** Drops the leases of `table[keep..]`, last page first. */
    method Rollback(table: seq<nat>, keep: nat)
      requires keep <= |table|
      requires Covers(references, table[keep..])
      modifies this
      ensures View() == UnrefAll(old(View()), table[keep..])
    {
      var rest := table[keep..];
      while rest != []
        invariant Covers(references, rest)
        invariant UnrefAll(View(), rest) == UnrefAll(old(View()), table[keep..])
        decreases |rest|
      {
        CoversPrefix(View(), rest);
        UnrefPage(rest[|rest| - 1]);
        rest := rest[..|rest| - 1];
      }
    }
  }
}
