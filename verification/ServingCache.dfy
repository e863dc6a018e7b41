/** The serving example's PagedKVCache (examples/serving_scheduler/native/paged_kv_cache.h): a batch append is staged on
    copies of the metadata, evicts prefix snapshots for room, and copies shared tails only once everything fits. */
module ServingCache {
  import opened Prelude
  import opened Arithmetic
  import opened PageKeys
  import opened KvPool
  import opened LexOrder
  import opened TrieWalk
  import opened ServingStage
  import opened ServingDemand

  /** Evicts the first snapshot in key order. */
  method EvictOne(s0: Stage, mem0: seq<Block>, s: Stage, ghost mem: seq<Block>, ghost grown: set<int>, size: nat) returns (t: Stage)
    requires size > 0 && s.prefixes.Keys != {} && Staged(s0, mem0, s, mem, grown, size)
    ensures Staged(s0, mem0, t, mem, grown, size) && t.tables == s.tables && t.lengths == s.lengths
    ensures t.prefixes.Keys < s.prefixes.Keys && Fewer(s, t)
    ensures exists k :: k in s.prefixes && t == Evict(s, k)
  {
    hide Staged;
    var least := LeastAhead(s.prefixes.Keys, None);
    EveryKeyAhead(s.prefixes.Keys, least);
    EvictStaged(s0, mem0, s, mem, grown, size, least.value);
    t := Evict(s, least.value);
    LeastGone(s, t, least.value);
  }

  lemma LeastGone(s: Stage, t: Stage, k: seq<int>)
    requires k in s.prefixes && t.prefixes == s.prefixes - {k} && IsLeastAhead(s.prefixes.Keys, None, Some(k))
    ensures Fewer(s, t)
  {
    forall a, b | a in t.prefixes && b in s.prefixes && Less(a, b) ensures b in t.prefixes {
      assert Ahead(a, None);
      LessTotal(k, a);
      assert b == k ==> Less(a, k);
    }
  }

  lemma EveryKeyAhead(keys: set<seq<int>>, least: Option<seq<int>>)
    requires keys != {} && IsLeastAhead(keys, None, least)
    ensures least.Some? && least.value in keys
  {
    var k :| k in keys;
    assert Ahead(k, None);
  }

  /** Evicts until a page is free; false when nothing is left to evict. */
  method FindRoom(s0: Stage, mem0: seq<Block>, s: Stage, ghost mem: seq<Block>, ghost grown: set<int>, size: nat) returns (ok: bool, t: Stage)
    requires size > 0 && Staged(s0, mem0, s, mem, grown, size)
    ensures Staged(s0, mem0, t, mem, grown, size) && t.tables == s.tables && t.lengths == s.lengths && Fewer(s, t)
    ensures ok <==> t.pool.free != []
    ensures !ok ==> t.prefixes.Keys == {}
    ensures s.pool.free != [] || s.prefixes.Keys == {} ==> t == s
    ensures t == s || (t.prefixes.Keys < s.prefixes.Keys && LastNeeded(s, t))
  {
    hide Staged, Fewer;
    FewerRefl(s);
    t := s;
    while t.pool.free == [] && t.prefixes.Keys != {}
      invariant Staged(s0, mem0, t, mem, grown, size) && t.tables == s.tables && t.lengths == s.lengths && Fewer(s, t)
      invariant s.pool.free != [] || s.prefixes.Keys == {} ==> t == s
      invariant t == s || (t.prefixes.Keys < s.prefixes.Keys && LastNeeded(s, t))
      decreases |t.prefixes.Keys|
    {
      ghost var before := t;
      t := EvictOne(s0, mem0, t, mem, grown, size);
      SmallerKeys(t.prefixes.Keys, before.prefixes.Keys);
      FewerTransitive(s, before, t);
    }
    ok := t.pool.free != [];
  }

  /** Some of the first snapshots in key order are gone, the others are as they were. */
  ghost predicate Fewer(s: Stage, t: Stage) {
    && (forall k :: k in t.prefixes ==> k in s.prefixes && t.prefixes[k] == s.prefixes[k])
    && forall a, b :: a in t.prefixes && b in s.prefixes && Less(a, b) ==> b in t.prefixes
  }

  /** With one eviction less there was no free page. */
  ghost predicate LastNeeded(s: Stage, t: Stage) {
    exists u: Stage, k: seq<int> :: Fewer(s, u) && u.pool.free == [] && k in u.prefixes && t == Evict(u, k)
  }

  lemma SmallerKeys(a: set<seq<int>>, b: set<seq<int>>)
    requires a < b
    ensures |a| < |b|
  {
    assert b == a + (b - a);
  }

  lemma ShapedFewer(s: Stage, t: Stage, size: nat)
    requires size > 0 && Shaped(s, size) && Fewer(s, t) && t.tables == s.tables && t.lengths == s.lengths
    ensures Shaped(t, size)
  {
  }

  /** The payload after all staged copies, in order. */
  function ApplyAll(mem: seq<Block>, copies: seq<(nat, nat)>): (r: seq<Block>)
    requires forall i :: 0 <= i < |copies| ==> copies[i].0 < |mem| && copies[i].1 < |mem|
    ensures |r| == |mem|
  {
    if copies == [] then mem
    else
      var n := |copies| - 1;
      CopyBlock(ApplyAll(mem, copies[..n]), copies[n].0, copies[n].1)
  }

  ghost predicate Applied(mem0: seq<Block>, copies: seq<(nat, nat)>, mem: seq<Block>) {
    (forall i :: 0 <= i < |copies| ==> copies[i].0 < |mem0| && copies[i].1 < |mem0|) && mem == ApplyAll(mem0, copies)
  }

  lemma AppliedSnoc(mem0: seq<Block>, copies: seq<(nat, nat)>, mem: seq<Block>, source: nat, destination: nat)
    requires Applied(mem0, copies, mem) && source < |mem| && destination < |mem|
    ensures Applied(mem0, copies + [(source, destination)], CopyBlock(mem, source, destination))
  {
    assert (copies + [(source, destination)])[..|copies|] == copies;
  }

  /** The tail of an ungrown sequence is its first writable page; the tail of a grown one is its own. */
  lemma TailFacts(s0: Stage, mem0: seq<Block>, s: Stage, mem: seq<Block>, grown: set<int>, size: nat, id: int)
    requires size > 0 && InBatch(s0, mem0, s, mem, grown, size) && id in s.tables
    ensures id in s.lengths && |s.tables[id]| == PageCount(s.lengths[id], size)
    ensures id !in grown && s.lengths[id] % size == 0 ==> FirstNew(s0, id, size) == |s.tables[id]|
    ensures s.lengths[id] % size != 0 ==>
      && s.tables[id] != []
      && var tail := s.tables[id][|s.tables[id]| - 1];
      && tail < |s.pool.refs| == |mem| && s.pool.refs[tail] == Held(s)[tail] >= 1
      && (id !in grown ==> FirstNew(s0, id, size) + 1 == |s.tables[id]|)
  {
    hide Same, Held, Counts, Writable;
    if s.lengths[id] % size != 0 {
      TableCounted(s, id, |s.tables[id]| - 1);
      HeldInPool(s, s.tables[id][|s.tables[id]| - 1]);
    }
    if id !in grown {
      assert s.lengths[id] == LengthOf(s0, id);
      DivisionBounds(0, size);
    }
  }

  lemma GrownTail(s0: Stage, mem0: seq<Block>, s: Stage, mem: seq<Block>, grown: set<int>, size: nat, id: int)
    requires size > 0 && InBatch(s0, mem0, s, mem, grown, size) && id in s.tables && id in grown && s.tables[id] != [] && s.lengths[id] % size != 0
    requires LengthOf(s0, id) <= s.lengths[id]
    ensures Held(s)[s.tables[id][|s.tables[id]| - 1]] == 1
  {
    hide Same, Held, Counts;
    assert Writable(Held(s), s.tables[id], FirstNew(s0, id, size));
    DivisionBounds(LengthOf(s0, id), size);
    DivisionBounds(s.lengths[id], size);
    MulMonotone(s.lengths[id] / size + 1, LengthOf(s0, id) / size, size);
    MulMonotone(s.lengths[id] / size, s.lengths[id] / size, size);
  }

  lemma PoolSize(s0: Stage, mem0: seq<Block>, s: Stage, t: Stage, mem: seq<Block>, grown: set<int>, size: nat)
    requires size > 0 && Staged(s0, mem0, s, mem, grown, size) && Staged(s0, mem0, t, mem, grown, size)
    ensures |t.pool.refs| == |s.pool.refs|
  {
    hide Counts, Held, Preserved, AllWritable;
  }

  lemma CopyBatch(s0: Stage, mem0: seq<Block>, s: Stage, mem: seq<Block>, grown: set<int>, size: nat, id: int)
    requires size > 0 && InBatch(s0, mem0, s, mem, grown, size) && id in s.tables && s.lengths[id] % size != 0 && s.pool.free != []
    requires LengthOf(s0, id) <= s.lengths[id] && s.tables[id] != [] && s.tables[id][|s.tables[id]| - 1] < |s.pool.refs|
    requires s.pool.refs[s.tables[id][|s.tables[id]| - 1]] > 1
    ensures var tail, b := s.tables[id][|s.tables[id]| - 1], s.pool.free[|s.pool.free| - 1];
      && tail < |mem| && b < |mem| && InBatch(s0, mem0, CopyTail(s, id), CopyBlock(mem, tail, b), grown + {id}, size)
  {
    hide Staged, Held, PageCount, Unref, Allocate, CopyBlock;
    TailFacts(s0, mem0, s, mem, grown, size, id);
    if id in grown {
      GrownTail(s0, mem0, s, mem, grown, size, id);
    }
    CopyStaged(s0, mem0, s, mem, grown, size, id);
    var t := CopyTail(s, id);
    assert t.tables.Keys == s.tables.Keys;
  }

  /** A sequence whose tail is already its own may grow. */
  lemma GrownBatch(s0: Stage, mem0: seq<Block>, s: Stage, mem: seq<Block>, grown: set<int>, size: nat, id: int)
    requires size > 0 && InBatch(s0, mem0, s, mem, grown, size) && id in s.tables
    requires s.lengths[id] % size != 0 ==>
      s.tables[id] != [] && s.tables[id][|s.tables[id]| - 1] < |s.pool.refs| && s.pool.refs[s.tables[id][|s.tables[id]| - 1]] <= 1
    ensures InBatch(s0, mem0, s, mem, grown + {id}, size)
  {
    TailFacts(s0, mem0, s, mem, grown, size, id);
    hide Preserved, Shaped, Held, Counts, PageCount;
    assert Writable(Held(s), s.tables[id], FirstNew(s0, id, size)) by {
      if id in grown {
        assert AllWritable(s0, s, grown, size);
      }
    }
  }

  /** Nobody else holds the tail, or there is none: the sequence may grow where it is. */
  lemma TailKept(s0: Stage, mem0: seq<Block>, s: Stage, mem: seq<Block>, f: Forecast, size: nat, id: int)
    requires size > 0 && InBatch(s0, mem0, s, mem, f.grown, size) && id in s.tables && Tracks(s0, s.tables, NoPages, f)
    requires s.lengths[id] % size != 0 ==>
      s.tables[id] != [] && s.tables[id][|s.tables[id]| - 1] < |s.pool.refs| && s.pool.refs[s.tables[id][|s.tables[id]| - 1]] <= 1
    ensures Tracks(s0, s.tables, NoPages, AfterTail(s0, f, id, size))
  {
    hide Staged, PageCount, Held, Tracks, AfterTail, Bag;
    TailFacts(s0, mem0, s, mem, f.grown, size, id);
    if s.lengths[id] % size != 0 {
      TableCounted(s, id, |s.tables[id]| - 1);
    }
    TracksStay(s0, s, NoPages, f, id, size);
  }

  /** The tail is left to its other holders. */
  lemma TailLeft(s0: Stage, mem0: seq<Block>, s: Stage, mem: seq<Block>, f: Forecast, size: nat, id: int)
    requires size > 0 && InBatch(s0, mem0, s, mem, f.grown, size) && id in s.tables && Tracks(s0, s.tables, NoPages, f)
    requires s.lengths[id] % size != 0 && LengthOf(s0, id) <= s.lengths[id]
    requires s.tables[id] != [] && s.tables[id][|s.tables[id]| - 1] < |s.pool.refs| && s.pool.refs[s.tables[id][|s.tables[id]| - 1]] > 1
    ensures s.pool.free != [] ==> Tracks(s0, CopyTail(s, id).tables, NoPages, AfterTail(s0, f, id, size))
    ensures s.pool.free == [] && s.prefixes.Keys == {} ==> AfterTail(s0, f, id, size).pages > |s.pool.refs|
  {
    hide InBatch, PageCount, Bag, Support, Counts, Held;
    SharedTail(s0, mem0, s, mem, f, size, id);
    if s.pool.free != [] {
      FreshPage(s);
      CopiedTables(s, id);
      TracksMove(s0, s, NoPages, f, id, s.pool.free[|s.pool.free| - 1], size);
    } else if s.prefixes.Keys == {} {
      PagesInUse(s);
      Alone(Bag(s.tables));
    }
  }

  /** Only a sequence the batch has not grown yet can have a shared tail. */
  lemma SharedTail(s0: Stage, mem0: seq<Block>, s: Stage, mem: seq<Block>, f: Forecast, size: nat, id: int)
    requires size > 0 && InBatch(s0, mem0, s, mem, f.grown, size) && id in s.tables
    requires s.lengths[id] % size != 0 && LengthOf(s0, id) <= s.lengths[id]
    requires s.tables[id] != [] && s.tables[id][|s.tables[id]| - 1] < |s.pool.refs| && s.pool.refs[s.tables[id][|s.tables[id]| - 1]] > 1
    ensures id !in f.grown && HasTail(s, id, size) && LengthOf(s, id) == LengthOf(s0, id)
    ensures Counts(s.pool, Held(s)) && Held(s)[TailOf(s.tables[id])] > 1
  {
    hide Staged, PageCount, Held, Counts;
    CountsStaged(s0, mem0, s, mem, f.grown, size);
    TailFacts(s0, mem0, s, mem, f.grown, size, id);
    if id in f.grown {
      GrownTail(s0, mem0, s, mem, f.grown, size, id);
    }
  }

  lemma CopiedTables(s: Stage, id: int)
    requires id in s.tables && s.tables[id] != [] && s.pool.free != []
    ensures CopyTail(s, id).tables == s.tables[id := Moved(s.tables[id], s.pool.free[|s.pool.free| - 1])]
    ensures Bag(s.tables) <= Held(s)
  {
    hide Bag, Unref, Allocate;
  }

  /** Nobody at all shares the tail. */
  lemma HeldKept(s0: Stage, mem0: seq<Block>, s: Stage, mem: seq<Block>, h: Forecast, size: nat, id: int)
    requires size > 0 && InBatch(s0, mem0, s, mem, h.grown, size) && id in s.tables && HeldTracks(s0, s, h)
    requires s.lengths[id] % size != 0 ==>
      s.tables[id] != [] && s.tables[id][|s.tables[id]| - 1] < |s.pool.refs| && s.pool.refs[s.tables[id][|s.tables[id]| - 1]] <= 1
    ensures HeldTracks(s0, s, AfterTail(s0, h, id, size))
  {
    hide Staged, PageCount, Tracks, AfterTail, Bag;
    TailFacts(s0, mem0, s, mem, h.grown, size, id);
    if s.prefixes.Keys == s0.prefixes.Keys {
      TracksStay(s0, s, Bag(s0.prefixes), h, id, size);
    } else {
      TailCosts(s0, h, id, size);
    }
  }

  /** Somebody, perhaps a snapshot, shares the tail: the copy takes a page, and without a free one something must go. */
  lemma HeldShared(s0: Stage, mem0: seq<Block>, s: Stage, mem: seq<Block>, h: Forecast, size: nat, id: int)
    requires size > 0 && InBatch(s0, mem0, s, mem, h.grown, size) && id in s.tables && HeldTracks(s0, s, h) && |s.pool.refs| == |s0.pool.refs|
    requires s.lengths[id] % size != 0 && LengthOf(s0, id) <= s.lengths[id]
    requires s.tables[id] != [] && s.tables[id][|s.tables[id]| - 1] < |s.pool.refs| && s.pool.refs[s.tables[id][|s.tables[id]| - 1]] > 1
    ensures s.pool.free != [] ==> HeldTracks(s0, CopyTail(s, id), AfterTail(s0, h, id, size))
    ensures s.pool.free == [] ==> AfterTail(s0, h, id, size).pages > |s0.pool.refs|
  {
    hide InBatch, PageCount, Bag, Support, Counts, Unref, Allocate;
    SharedTail(s0, mem0, s, mem, h, size, id);
    TailCosts(s0, h, id, size);
    if s.prefixes.Keys == s0.prefixes.Keys {
      if s.pool.free != [] {
        FreshPage(s);
        CopiedTables(s, id);
        TracksMove(s0, s, Bag(s0.prefixes), h, id, s.pool.free[|s.pool.free| - 1], size);
      } else {
        FreePlusDistinct(s.pool, Held(s));
      }
    }
  }

  lemma CountsStaged(s0: Stage, mem0: seq<Block>, s: Stage, mem: seq<Block>, grown: set<int>, size: nat)
    requires size > 0 && Staged(s0, mem0, s, mem, grown, size)
    ensures Counts(s.pool, Held(s)) && |s.pool.refs| == |mem|
  {
    hide Counts, Held, Preserved, AllWritable;
  }

  /** Makes the shared tail of a sequence private before it grows, evicting snapshots if that frees a page or unshares it.
      It fails exactly when the tail is shared with another table and the tables already hold every page. */
  method PrivateTail(s0: Stage, mem0: seq<Block>, s: Stage, copies: seq<(nat, nat)>, ghost mem: seq<Block>, ghost grown: set<int>, size: nat, id: int, ghost f: Forecast, ghost h: Forecast)
      returns (ok: bool, t: Stage, copies': seq<(nat, nat)>, ghost mem': seq<Block>)
    requires size > 0 && Tracks(s0, s.tables, NoPages, f) && f.grown == grown && HeldTracks(s0, s, h) && h.grown == grown && |s.pool.refs| == |s0.pool.refs|
    requires size > 0 && InBatch(s0, mem0, s, mem, grown, size) && id in s.tables && Applied(mem0, copies, mem) && LengthOf(s0, id) <= LengthOf(s, id)
    ensures ok ==> InBatch(s0, mem0, t, mem', grown + {id}, size) && t.tables.Keys == s.tables.Keys && t.lengths == s.lengths && Applied(mem0, copies', mem')
    ensures ok ==> Tracks(s0, t.tables, NoPages, AfterTail(s0, f, id, size)) && id in t.tables && |t.tables[id]| == |s.tables[id]|
    ensures !ok ==> AfterTail(s0, f, id, size).pages > |s.pool.refs|
    ensures ok ==> HeldTracks(s0, t, AfterTail(s0, h, id, size)) && Fewer(s, t)
  {
    hide Staged, Shaped, PageCount, Held, Applied, CopyBlock, Untouched, Fewer, Unref, Allocate, Tracks, AfterTail, HeldTracks;
    t, copies', mem' := s, copies, mem;
    FewerRefl(s);
    TailFacts(s0, mem0, s, mem, grown, size, id);
    if s.lengths[id] % size != 0 && s.pool.refs[s.tables[id][|s.tables[id]| - 1]] > 1 {
      var tail := s.tables[id][|s.tables[id]| - 1];
      HeldShared(s0, mem0, s, mem, h, size, id);
      t := Unshare(s0, mem0, s, mem, grown, size, tail);
      ShapedFewer(s, t, size);
      UntouchedSame(s0, s, t, grown);
      HeldNow(s0, s, t, h, id, size);
      if t.pool.refs[tail] > 1 {
        TailLeft(s0, mem0, t, mem, f, size, id);
        var room, u := FindRoom(s0, mem0, t, mem, grown, size);
        assert u == t;
        if !room {
          return false, t, copies', mem';
        }
        CopyBatch(s0, mem0, t, mem, grown, size, id);
        var b := t.pool.free[|t.pool.free| - 1];
        AppliedSnoc(mem0, copies, mem, tail, b);
        copies', mem' := copies' + [(tail, b)], CopyBlock(mem, tail, b);
        FewerSame(s, t, CopyTail(t, id));
        t := CopyTail(t, id);
        return true, t, copies', mem';
      }
    }
    GrownBatch(s0, mem0, t, mem, grown, size, id);
    TailKept(s0, mem0, t, mem, f, size, id);
    if t == s {
      HeldKept(s0, mem0, s, mem, h, size, id);
    }
    ok := true;
  }

  /** Evicts snapshots until a page is free or the tail is no longer shared. */
  method Unshare(s0: Stage, mem0: seq<Block>, s: Stage, ghost mem: seq<Block>, ghost grown: set<int>, size: nat, tail: nat) returns (t: Stage)
    requires size > 0 && Staged(s0, mem0, s, mem, grown, size) && tail < |s.pool.refs|
    ensures Staged(s0, mem0, t, mem, grown, size) && t.tables == s.tables && t.lengths == s.lengths && Fewer(s, t) && |t.pool.refs| == |s.pool.refs|
    ensures t.pool.free != [] || t.pool.refs[tail] <= 1 || t.prefixes.Keys == {}
    ensures t == s || (s.pool.free == [] && s.pool.refs[tail] > 1 && t.prefixes.Keys < s.prefixes.Keys)
  {
    hide Staged, Fewer;
    t := s;
    FewerRefl(s);
    while t.pool.free == [] && t.pool.refs[tail] > 1 && t.prefixes.Keys != {}
      invariant Staged(s0, mem0, t, mem, grown, size) && t.tables == s.tables && t.lengths == s.lengths && Fewer(s, t) && tail < |t.pool.refs| == |s.pool.refs|
      invariant t == s || (s.pool.free == [] && s.pool.refs[tail] > 1 && t.prefixes.Keys < s.prefixes.Keys)
      decreases |t.prefixes.Keys|
    {
      ghost var before := t;
      t := EvictOne(s0, mem0, t, mem, grown, size);
      SmallerKeys(t.prefixes.Keys, before.prefixes.Keys);
      PoolSize(s0, mem0, before, t, mem, grown, size);
      FewerTransitive(s, before, t);
    }
  }

  /** After the evictions for a shared tail, with the copy or without it. */
  lemma HeldNow(s0: Stage, s: Stage, t: Stage, h: Forecast, id: int, size: nat)
    requires size > 0 && HeldTracks(s0, s, h) && id in t.tables && t.tables[id] != []
    requires t == s || (s.pool.free == [] && t.prefixes.Keys < s.prefixes.Keys)
    requires s.pool.free == [] ==> AfterTail(s0, h, id, size).pages > |s0.pool.refs|
    requires s.pool.free != [] ==> id in s.tables && s.tables[id] != [] && HeldTracks(s0, CopyTail(s, id), AfterTail(s0, h, id, size))
    ensures t != s ==> HeldTracks(s0, t, AfterTail(s0, h, id, size))
    ensures t.pool.free != [] ==> HeldTracks(s0, CopyTail(t, id), AfterTail(s0, h, id, size))
  {
    hide Tracks, AfterTail, Unref, Allocate;
  }

  lemma FewerRefl(s: Stage)
    ensures Fewer(s, s)
  {
  }

  lemma UntouchedSame(s0: Stage, s: Stage, t: Stage, grown: set<int>)
    requires Untouched(s0, s, grown) && t.lengths == s.lengths
    ensures Untouched(s0, t, grown)
  {
  }

  ghost function MorePages(f: Forecast, n: int): Forecast {
    f.(pages := f.pages + n)
  }

  lemma GrowStep(s0: Stage, mem0: seq<Block>, s: Stage, mem: seq<Block>, f: Forecast, n: int, size: nat, id: int)
    requires size > 0 && Staged(s0, mem0, s, mem, f.grown, size) && Tracks(s0, s.tables, NoPages, MorePages(f, n)) && id in s.tables && id in f.grown
    ensures s.pool.free != [] ==> Tracks(s0, Push(s, id).tables, NoPages, MorePages(f, n + 1))
    ensures s.pool.free == [] && s.prefixes.Keys == {} ==> MorePages(f, n).pages == |s.pool.refs|
  {
    hide Staged, Bag, Support, Counts, Tracks, Allocate;
    CountsStaged(s0, mem0, s, mem, f.grown, size);
    TracksPages(s0, s.tables, NoPages, MorePages(f, n));
    if s.pool.free != [] {
      FreshPage(s);
      TracksPush(s0, s.tables, NoPages, MorePages(f, n), id, s.pool.free[|s.pool.free| - 1]);
    } else if s.prefixes.Keys == {} {
      PagesInUse(s);
    }
  }

  /** One more page, evicting for it only when none is free. */
  lemma HeldGrow(s0: Stage, mem0: seq<Block>, s: Stage, t: Stage, mem: seq<Block>, h: Forecast, n: int, size: nat, id: int)
    requires size > 0 && Staged(s0, mem0, s, mem, h.grown, size) && Staged(s0, mem0, t, mem, h.grown, size) && |s.pool.refs| == |s0.pool.refs|
    requires HeldTracks(s0, s, MorePages(h, n)) && id in t.tables && id in h.grown && t.pool.free != [] && t.tables == s.tables
    requires t == s || (s.pool.free == [] && t.prefixes.Keys < s.prefixes.Keys)
    ensures HeldTracks(s0, Push(t, id), MorePages(h, n + 1))
  {
    hide Staged, Bag, Support, Counts, Tracks, Allocate;
    CountsStaged(s0, mem0, s, mem, h.grown, size);
    if s.prefixes.Keys == s0.prefixes.Keys {
      TracksPages(s0, s.tables, Bag(s0.prefixes), MorePages(h, n));
      if t == s {
        FreshPage(s);
        TracksPush(s0, s.tables, Bag(s0.prefixes), MorePages(h, n), id, s.pool.free[|s.pool.free| - 1]);
      } else {
        FreePlusDistinct(s.pool, Held(s));
      }
    }
  }

  /** Adds pages until the table has `needed`; fails exactly when the tables would need more pages than there are. */
  method GrowTable(s0: Stage, mem0: seq<Block>, s: Stage, ghost mem: seq<Block>, ghost grown: set<int>, size: nat, id: int, needed: nat, ghost f: Forecast, ghost h: Forecast)
      returns (ok: bool, t: Stage)
    requires size > 0 && Tracks(s0, s.tables, NoPages, f) && f.grown == grown && HeldTracks(s0, s, h) && h.grown == grown && |s.pool.refs| == |s0.pool.refs|
    requires Staged(s0, mem0, s, mem, grown, size) && id in s.tables && id in grown && |s.tables[id]| <= needed
    ensures ok ==> Staged(s0, mem0, t, mem, grown, size) && t.lengths == s.lengths && Fewer(s, t) && OnlyTable(s, t, id) && |t.tables[id]| == needed
    ensures ok ==> Tracks(s0, t.tables, NoPages, MorePages(f, needed - |s.tables[id]|))
    ensures !ok ==> MorePages(f, needed - |s.tables[id]|).pages > |s.pool.refs|
    ensures ok ==> HeldTracks(s0, t, MorePages(h, needed - |s.tables[id]|))
  {
    hide Staged, Allocate, Fewer, Tracks, HeldTracks, LastNeeded;
    t := s;
    FewerRefl(s);
    while |t.tables[id]| < needed
      invariant Staged(s0, mem0, t, mem, grown, size) && t.lengths == s.lengths && Fewer(s, t) && OnlyTable(s, t, id) && |s.tables[id]| <= |t.tables[id]| <= needed
      invariant Tracks(s0, t.tables, NoPages, MorePages(f, |t.tables[id]| - |s.tables[id]|)) && |t.pool.refs| == |s.pool.refs|
      invariant HeldTracks(s0, t, MorePages(h, |t.tables[id]| - |s.tables[id]|))
      decreases needed - |t.tables[id]|
    {
      ghost var before := t;
      ok, t := FindRoom(s0, mem0, t, mem, grown, size);
      PoolSize(s0, mem0, before, t, mem, grown, size);
      GrowStep(s0, mem0, t, mem, f, |t.tables[id]| - |s.tables[id]|, size, id);
      if !ok {
        return;
      }
      HeldGrow(s0, mem0, before, t, mem, h, |t.tables[id]| - |s.tables[id]|, size, id);
      FewerTransitive(s, before, t);
      PushStaged(s0, mem0, t, mem, grown, size, id);
      assert grown + {id} == grown;
      FewerSame(s, t, Push(t, id));
      t := Push(t, id);
    }
    ok := true;
  }

  ghost predicate OnlyTable(s: Stage, t: Stage, id: int) {
    id in t.tables && t.tables.Keys == s.tables.Keys && forall x :: x in s.tables && x != id ==> t.tables[x] == s.tables[x]
  }

  lemma FewerTransitive(s: Stage, t: Stage, u: Stage)
    requires Fewer(s, t) && Fewer(t, u)
    ensures Fewer(s, u)
  {
  }

  lemma FewerSame(s: Stage, t: Stage, u: Stage)
    requires Fewer(s, t) && u.prefixes == t.prefixes
    ensures Fewer(s, u)
  {
  }

  /** An empty sequence holds nothing. */
  function WithSequence(s: Stage, id: int): Stage {
    if id in s.tables then s else s.(tables := s.tables[id := []], lengths := s.lengths[id := 0])
  }

  lemma AddSequence(s0: Stage, mem0: seq<Block>, s: Stage, mem: seq<Block>, grown: set<int>, size: nat, id: int)
    requires size > 0 && InBatch(s0, mem0, s, mem, grown, size) && (id in s0.lengths ==> id in s.tables)
    ensures InBatch(s0, mem0, WithSequence(s, id), mem, grown, size)
  {
    hide Same, Counts, PageCount, Writable, Held;
    if id !in s.tables {
      HeldWithSequence(s, id);
      PageCountBounds(0, size);
      var t := WithSequence(s, id);
      assert id !in grown;
      forall x | x in grown ensures x in t.tables && Writable(Held(t), t.tables[x], FirstNew(s0, x, size)) {
        assert x in s.tables;
      }
      forall x | x in s0.tables ensures x in t.tables && t.tables[x] == s.tables[x] {
        assert x in s.tables;
      }
    }
  }

  lemma HeldWithSequence(s: Stage, id: int)
    requires id !in s.tables
    ensures Held(WithSequence(s, id)) == Held(s)
  {
    BagUpdate(s.tables, id, []);
    hide Bag;
  }

  lemma SetLength(s0: Stage, mem0: seq<Block>, s: Stage, t: Stage, mem: seq<Block>, grown: set<int>, size: nat, id: int, n: nat)
    requires size > 0 && Staged(s0, mem0, t, mem, grown, size) && Shaped(s, size) && Untouched(s0, s, grown) && id in grown && id in s.tables
    requires t.lengths == s.lengths && Fewer(s, t) && OnlyTable(s, t, id) && |t.tables[id]| == PageCount(n, size)
    ensures InBatch(s0, mem0, t.(lengths := t.lengths[id := n]), mem, grown, size)
  {
    var u := t.(lengths := t.lengths[id := n]);
    StagedIgnoresLengths(s0, mem0, t, u, mem, grown, size);
    hide Staged, PageCount;
  }

  lemma StagedIgnoresLengths(s0: Stage, mem0: seq<Block>, t: Stage, u: Stage, mem: seq<Block>, grown: set<int>, size: nat)
    requires size > 0 && Staged(s0, mem0, t, mem, grown, size) && u.pool == t.pool && u.tables == t.tables && u.prefixes == t.prefixes
    ensures Staged(s0, mem0, u, mem, grown, size)
  {
    hide Counts, Same, Writable;
    assert Held(u) == Held(t);
    hide Held;
  }

  /** No sequence is lost or gets shorter. */
  ghost predicate Longer(s0: Stage, s: Stage) {
    forall id :: id in s0.lengths ==> id in s.lengths && s0.lengths[id] <= s.lengths[id]
  }

  /** One target of the batch. */
  method AppendTarget(s0: Stage, mem0: seq<Block>, s: Stage, copies: seq<(nat, nat)>, ghost mem: seq<Block>, ghost grown: set<int>, size: nat, id: int, length: int, ghost f: Forecast, ghost h: Forecast)
      returns (r: AppendReply, t: Stage, copies': seq<(nat, nat)>, ghost mem': seq<Block>, ghost grown': set<int>)
    requires size > 0 && InBatch(s0, mem0, s, mem, grown, size) && Applied(mem0, copies, mem) && Longer(s0, s) && s0.tables.Keys == s0.lengths.Keys
    requires Tracks(s0, s.tables, NoPages, f) && f.grown == grown && |s0.pool.refs| == |mem0| && HeldTracks(s0, s, h) && h.grown == grown
    ensures r == Done ==> Fewer(s, t)
    ensures r == Done && length >= 0 ==> var g := AfterTarget(s0, h, id, LengthOf(s, id), length, size); HeldTracks(s0, t, g) && g.grown == grown'
    ensures r == NextForecast(s0, f, LengthOf(s, id), id, length, size).0
    ensures r == Done ==> TargetOk(id, length) && LengthOf(s, id) <= length
    ensures r == Done ==> var g := NextForecast(s0, f, LengthOf(s, id), id, length, size).1; Tracks(s0, t.tables, NoPages, g) && g.grown == grown'
    ensures r == Done ==>
      && InBatch(s0, mem0, t, mem', grown', size) && Applied(mem0, copies', mem') && Longer(s0, t)
      && t.lengths == s.lengths[id := length] && grown' == grown + (if length > LengthOf(s, id) then {id} else {})
  {
    hide Staged, Shaped, PageCount, Held, Applied, Untouched, Tracks, AfterTail, Longer, HeldTracks, Fewer;
    StageSize(s0, mem0, s, mem, copies, grown, size);
    t, copies', mem', grown' := s, copies, mem, grown;
    if !TargetOk(id, length) {
      return Rejected, t, copies', mem', grown';
    }
    ShapedKeys(s, size);
    Kept(s0, s, id);
    AddSequence(s0, mem0, s, mem, grown, size, id);
    TracksAdded(s0, s, NoPages, f, id);
    HeldAdded(s0, s, h, id);
    FewerSame(s, s, WithSequence(s, id));
    AddedTables(s, id);
    t := WithSequence(s, id);
    if length < t.lengths[id] {
      return Rejected, t, copies', mem', grown';
    }
    if length > t.lengths[id] {
      ghost var start := t;
      TableSize(t, size, id);
      LongerStill(s0, s, t, id);
      var ok;
      ok, t, copies', mem' := GrowTarget(s0, mem0, t, copies, mem, grown, size, id, length, f, h);
      grown' := grown + {id};
      if !ok {
        return Exhausted, t, copies', mem', grown';
      }
      FewerTransitive(s, start, t);
      StillLonger(s0, s, id, length);
    }
    r := Done;
  }

  lemma LongerStill(s0: Stage, s: Stage, t: Stage, id: int)
    requires Longer(s0, s) && t == WithSequence(s, id) && (id in s.tables <==> id in s.lengths)
    ensures Longer(s0, t) && LengthOf(t, id) == LengthOf(s, id) && LengthOf(s0, id) <= LengthOf(t, id)
  {
  }

  /** Grows one sequence to a longer length. */
  method GrowTarget(s0: Stage, mem0: seq<Block>, s: Stage, copies: seq<(nat, nat)>, ghost mem: seq<Block>, ghost grown: set<int>, size: nat, id: int, length: nat,
                    ghost f: Forecast, ghost h: Forecast)
      returns (ok: bool, t: Stage, copies': seq<(nat, nat)>, ghost mem': seq<Block>)
    requires size > 0 && InBatch(s0, mem0, s, mem, grown, size) && Applied(mem0, copies, mem) && |s0.pool.refs| == |mem0|
    requires Tracks(s0, s.tables, NoPages, f) && f.grown == grown && HeldTracks(s0, s, h) && h.grown == grown
    requires id in s.tables && LengthOf(s0, id) <= LengthOf(s, id) < length
    ensures var g := AfterTarget(s0, f, id, LengthOf(s, id), length, size);
      if ok then g.pages <= |s0.pool.refs| && Tracks(s0, t.tables, NoPages, g) && g.grown == grown + {id} else g.pages > |s0.pool.refs|
    ensures ok ==>
      && InBatch(s0, mem0, t, mem', grown + {id}, size) && Applied(mem0, copies', mem') && t.lengths == s.lengths[id := length] && Fewer(s, t)
      && var g := AfterTarget(s0, h, id, LengthOf(s, id), length, size);
      HeldTracks(s0, t, g) && g.grown == grown + {id}
  {
    hide Staged, Shaped, PageCount, Held, Applied, Untouched, Tracks, AfterTail, HeldTracks, Fewer;
    StageSize(s0, mem0, s, mem, copies, grown, size);
    RoomToGrow(s, size, id, length);
    TableSize(s, size, id);
    ok, t, copies', mem' := PrivateTail(s0, mem0, s, copies, mem, grown, size, id, f, h);
    if !ok {
      return;
    }
    ghost var wide := grown + {id};
    var needed := PageCount(length, size);
    RoomToGrow(t, size, id, length);
    ghost var before := t;
    ghost var g, k := AfterTail(s0, f, id, size), AfterTail(s0, h, id, size);
    GrownNow(s0, f, id, size);
    GrownNow(s0, h, id, size);
    StageSize(s0, mem0, t, mem', copies', wide, size);
    ok, t := GrowTable(s0, mem0, t, mem', wide, size, id, needed, g, k);
    if !ok {
      return;
    }
    CountsStaged(s0, mem0, t, mem', wide, size);
    StageSize(s0, mem0, t, mem', copies', wide, size);
    FitsTables(s0, t, MorePages(g, needed - |before.tables[id]|));
    FewerTransitive(s, before, t);
    ghost var longer := t.(lengths := t.lengths[id := length]);
    FewerSame(s, t, longer);
    HeldLengths(s0, t, longer, MorePages(k, needed - |before.tables[id]|));
    SetLength(s0, mem0, before, t, mem', wide, size, id, length);
    t := t.(lengths := t.lengths[id := length]);
  }

  lemma HeldAdded(s0: Stage, s: Stage, h: Forecast, id: int)
    requires HeldTracks(s0, s, h) && (id in s0.tables ==> id in s.tables)
    ensures HeldTracks(s0, WithSequence(s, id), h)
  {
    AddedTables(s, id);
    hide Tracks;
    if s.prefixes.Keys == s0.prefixes.Keys {
      TracksAdded(s0, s, Bag(s0.prefixes), h, id);
    }
  }

  lemma HeldLengths(s0: Stage, s: Stage, t: Stage, h: Forecast)
    requires HeldTracks(s0, s, h) && t.tables == s.tables && t.prefixes == s.prefixes
    ensures HeldTracks(s0, t, h)
  {
    hide Tracks;
  }

  lemma StageSize(s0: Stage, mem0: seq<Block>, s: Stage, mem: seq<Block>, copies: seq<(nat, nat)>, grown: set<int>, size: nat)
    requires size > 0 && Staged(s0, mem0, s, mem, grown, size) && Applied(mem0, copies, mem)
    ensures |s.pool.refs| == |mem0|
  {
    CountsStaged(s0, mem0, s, mem, grown, size);
    hide Staged;
  }

  lemma Kept(s0: Stage, s: Stage, id: int)
    requires Longer(s0, s) && s0.tables.Keys == s0.lengths.Keys && s.tables.Keys == s.lengths.Keys
    ensures id in s0.tables ==> id in s.tables && LengthOf(s0, id) <= LengthOf(s, id)
  {
  }

  lemma AddedTables(s: Stage, id: int)
    ensures WithSequence(s, id).tables == s.tables[id := TableIn(s.tables, id)]
  {
  }

  lemma TableSize(s: Stage, size: nat, id: int)
    requires size > 0 && Shaped(s, size) && id in s.tables
    ensures id in s.lengths && |s.tables[id]| == PageCount(s.lengths[id], size)
  {
    hide PageCount;
  }

  lemma GrownNow(s0: Stage, f: Forecast, id: int, size: nat)
    requires size > 0
    ensures AfterTail(s0, f, id, size).grown == f.grown + {id}
  {
  }

  lemma FitsTables(s0: Stage, s: Stage, f: Forecast)
    requires Tracks(s0, s.tables, NoPages, f) && Counts(s.pool, Held(s))
    ensures f.pages <= |s.pool.refs|
  {
    PagesInUse(s);
    Alone(Bag(s.tables));
    hide Held, Counts, Bag, Support;
  }

  lemma StillLonger(s0: Stage, s: Stage, id: int, n: nat)
    requires Longer(s0, s) && LengthOf(s, id) <= n
    ensures forall t: Stage {:trigger Longer(s0, t)} :: t.lengths == s.lengths[id := n] ==> Longer(s0, t)
  {
  }

  lemma ShapedKeys(s: Stage, size: nat)
    requires size > 0 && Shaped(s, size)
    ensures s.tables.Keys == s.lengths.Keys
  {
  }

  lemma RoomToGrow(s: Stage, size: nat, id: int, length: nat)
    requires size > 0 && Shaped(s, size) && id in s.tables && LengthOf(s, id) <= length
    ensures id in s.lengths && |s.tables[id]| <= PageCount(length, size)
  {
    PageCountMonotone(s.lengths[id], length, size);
    hide PageCount;
  }

  class PagedKVCache {
    const size: nat
    var free: seq<nat>
    var references: seq<nat>
    var tables: map<int, seq<nat>>
    var lengths: map<int, nat>
    var prefixes: map<seq<int>, seq<nat>>
    var payload: seq<Block>

    ghost function View(): Stage
      reads this
    {
      Stage(Pool(free, references), tables, lengths, prefixes)
    }

    /** Every page is counted once per holder, and every table and snapshot has the pages it needs. */
    ghost predicate Valid()
      reads this
    {
      size > 0 && Shaped(View(), size) && Counts(View().pool, Held(View())) && |references| == |payload|
    }

    constructor (blocks: nat, size: nat, blank: Block)
      requires size > 0
      ensures Valid() && this.size == size && tables == map[] && prefixes == map[] && |free| == |references| == blocks
    {
      this.size := size;
      var list: seq<nat> := [];
      for i := 0 to blocks
        invariant |list| == i && forall k :: 0 <= k < i ==> list[k] == blocks - 1 - k
      {
        list := list + [blocks - 1 - i];
      }
      free, references := list, seq(blocks, _ => 0);
      tables, lengths, prefixes, payload := map[], map[], map[], seq(blocks, _ => blank);
      new;
      NothingHeld(View(), size, blocks);
    }

    /** Adopts the longest snapshot that is a prefix of the tokens and no longer than `limit`; zero when there is none. */
    method ReusePrefix(id: int, tokens: seq<int>, limit: int) returns (r: Option<nat>)
      requires Valid()
      modifies this
      ensures Valid() && payload == old(payload) && prefixes == old(prefixes)
      ensures r.None? <==> id in old(tables)
      ensures r == Some(0) || r.None? ==> View() == old(View())
      ensures r.Some? ==> r.value <= |tokens| && forall k :: Adoptable(old(prefixes).Keys, k, tokens, limit) ==> |k| <= r.value
      ensures r.Some? && r.value > 0 ==>
        && Adoptable(prefixes.Keys, tokens[..r.value], tokens, limit)
        && tables == old(tables)[id := prefixes[tokens[..r.value]]] && lengths == old(lengths)[id := r.value]
    {
      hide Shaped, Held, Counts;
      if id in tables {
        return None;
      }
      var best := LongestMatch(prefixes.Keys, tokens, limit);
      if best.None? {
        return Some(0);
      }
      var key := best.value;
      assert key == tokens[..|key|];
      ghost var s := View();
      AdoptOk(s, size, id, key);
      var pages := prefixes[key];
      RetainEach(pages);
      tables, lengths := tables[id := pages], lengths[id := |key|];
      return Some(|key|);
    }

    /** Keeps snapshots of the front parts of a finished sequence, at every full page, before the last token and at the
        end; existing ones are left alone. */
    method PublishPrefix(id: int, tokens: seq<int>) returns (ok: bool)
      requires Valid()
      modifies this
      ensures Valid() && payload == old(payload) && tables == old(tables) && lengths == old(lengths)
      ensures ok <==> tokens != [] && id in lengths && lengths[id] == |tokens|
      ensures if ok then id in tables && SnapshotsAdded(old(prefixes), prefixes, tables[id], tokens, size) else prefixes == old(prefixes)
      ensures ok ==> tokens in prefixes && (|tokens| > 1 ==> tokens[..|tokens| - 1] in prefixes)
      ensures ok ==> FullPagesKept(prefixes.Keys, tokens, size)
      ensures ok ==> forall k :: k in prefixes && k !in old(prefixes) ==>
        k <= tokens && |prefixes[k]| <= |tables[id]| && prefixes[k] == tables[id][..|prefixes[k]|] && |prefixes[k]| == PageCount(|k|, size)
    {
      hide Shaped, Held, Counts, PageCount, FrontPages, RetainAll, SnapshotsAdded, FullPagesKept;
      if tokens == [] || id !in lengths || lengths[id] != |tokens| {
        return false;
      }
      ShapedKeys(View(), size);
      NothingAdded(prefixes, tables[id], tokens, size);
      var ends := SnapshotEnds(|tokens|, size);
      for i := 0 to |ends|
        invariant Valid() && payload == old(payload) && tables == old(tables) && lengths == old(lengths)
        invariant SnapshotsAdded(old(prefixes), prefixes, tables[id], tokens, size)
        invariant forall x :: 0 <= x < i ==> tokens[..ends[x]] in prefixes
      {
        AddedStep(old(prefixes), prefixes, tables[id], tokens, size, ends[i]);
        PublishOne(id, tokens[..ends[i]]);
      }
      assert tokens[..|tokens|] == tokens;
      FullPagesIn(ends, prefixes.Keys, tokens, size);
      NewSnapshots(old(prefixes), prefixes, View(), id, tokens, size);
      ok := true;
    }

    /** One snapshot, unless it exists. */
    method PublishOne(id: int, key: seq<int>)
      requires Valid() && id in tables && id in lengths && |key| <= lengths[id]
      modifies this
      ensures Valid() && payload == old(payload) && tables == old(tables) && lengths == old(lengths)
      ensures prefixes == if key in old(prefixes) then old(prefixes) else old(prefixes)[key := FrontPages(tables[id], PageCount(|key|, size))]
    {
      hide Shaped, Held, Counts, PageCount, FrontPages, RetainAll;
      if key !in prefixes {
        SnapshotOk(View(), size, id, key);
        var pages := FrontPages(tables[id], PageCount(|key|, size));
        RetainEach(pages);
        prefixes := prefixes[key := pages];
      }
    }

    method RetainEach(pages: seq<nat>)
      requires Within(pages, |references|)
      modifies this`references
      ensures Pool(free, references) == RetainAll(Pool(free, old(references)), pages)
    {
      var rest := pages;
      while rest != []
        invariant Within(rest, |references|) && RetainAll(Pool(free, references), rest) == RetainAll(Pool(free, old(references)), pages)
        decreases |rest|
      {
        references := references[rest[0] := references[rest[0]] + 1];
        rest := rest[1..];
      }
    }

    /** Gives back the pages of a sequence. */
    method Release(id: int) returns (ok: bool)
      requires Valid()
      modifies this
      ensures Valid() && payload == old(payload) && prefixes == old(prefixes) && (ok <==> id in old(tables))
      ensures tables == old(tables) - {id} && (ok ==> lengths == old(lengths) - {id})
    {
      hide Shaped, Held, Counts, UnrefEach;
      if id !in tables {
        return false;
      }
      ghost var s := View();
      ReleaseOk(s, size, id);
      var pages := tables[id];
      var p := DropEach(Pool(free, references), pages);
      free, references := p.free, p.refs;
      tables, lengths := tables - {id}, lengths - {id};
      ok := true;
    }

    /** Grows a whole batch or changes nothing. After success every table and every surviving snapshot reads as before,
        and the pages of the new positions belong to their sequence alone. The outcome is the one foreseen from the live
        tables: snapshots never stand in the way. */
    method PrepareAppend(targets: seq<(int, int)>, commit: bool) returns (r: AppendReply)
      requires Valid()
      modifies this
      ensures Valid() && r == Foreseen(old(View()), targets, size).0
      ensures r != Done || !commit ==> View() == old(View()) && payload == old(payload)
      ensures r == Done && commit ==>
        && Preserved(old(View()), old(payload), View(), payload, size) && lengths == FinalLengths(old(lengths), targets)
        && forall id :: id in lengths && lengths[id] > LengthOf(old(View()), id) ==>
             id in tables && Writable(Held(View()), tables[id], FirstNew(old(View()), id, size))
      ensures r == Done && commit ==> forall id, p: nat :: id in lengths && LengthOf(old(View()), id) <= p < lengths[id] ==> OwnPage(View(), size, id, p)
      ensures r == Done && commit ==> LengthsSet(old(lengths), lengths, targets)
      ensures r == Done && commit ==>
        Fewer(old(View()), View()) && (prefixes == old(prefixes) <==> Undisturbed(old(View()), targets, size).pages <= |references|)
    {
      hide Shaped, Staged, PageCount, Held, Applied, Counts, Preserved, Writable, Untouched, Longer, AllWritable, Tracks, NextForecast, FirstForecast,
           HeldTracks, Fewer, AfterTarget, OwnPage, LengthsSet;
      var s0, mem0 := Stage(Pool(free, references), tables, lengths, prefixes), payload;
      var s: Stage, copies: seq<(nat, nat)> := s0, [];
      ghost var mem: seq<Block>, grown: set<int> := mem0, {};
      StartBatch(s0, mem0, size);
      StartFacts(s0, mem0, size);
      TracksStart(s0);
      ghost var f := FirstForecast(s0);
      HeldStart(s0);
      ghost var h := Undisturbed(s0, [], size);
      FewerRefl(s0);
      FirstGrown(s0);
      for i := 0 to |targets|
        invariant InBatch(s0, mem0, s, mem, grown, size) && Applied(mem0, copies, mem) && Longer(s0, s)
        invariant s.lengths == FinalLengths(s0.lengths, targets[..i])
        invariant Foreseen(s0, targets[..i], size) == (Done, f) && Tracks(s0, s.tables, NoPages, f) && f.grown == grown
        invariant h == Undisturbed(s0, targets[..i], size) && HeldTracks(s0, s, h) && h.grown == grown && Fewer(s0, s)
        invariant forall x :: 0 <= x < i ==> targets[x].1 >= 0
        invariant GrownOnly(s0, s, grown) && Valid() && View() == s0 && payload == mem0
      {
        assert targets[..i + 1][..i] == targets[..i];
        ghost var before := s;
        ghost var wide := grown;
        ghost var next := NextForecast(s0, f, LengthOf(s, targets[i].0), targets[i].0, targets[i].1, size);
        assert Foreseen(s0, targets[..i + 1], size) == next;
        r, s, copies, mem, grown := AppendTarget(s0, mem0, s, copies, mem, grown, size, targets[i].0, targets[i].1, f, h);
        if r != Done {
          RefusalStays(s0, targets, i + 1, size);
          return r;
        }
        f := next.1;
        h := AfterTarget(s0, h, targets[i].0, LengthOf(before, targets[i].0), targets[i].1, size);
        FewerTransitive(s0, before, s);
        GrownStep(s0, before, s, wide, grown, targets[i].0, targets[i].1);
      }
      assert targets[..|targets|] == targets;
      LengthsAre(s0.lengths, targets);
      r := Done;
      if !commit {
        return;
      }
      EndBatch(s0, mem0, s, mem, grown, size);
      BatchEnds(s0, mem0, s, mem, copies, grown, size, h);
      payload := ApplyCopies(mem0, copies, mem);
      free, references, tables, lengths, prefixes := s.pool.free, s.pool.refs, s.tables, s.lengths, s.prefixes;
      assert View() == s;
    }
  }

  /** The page of position `p` has this sequence as its only holder. */
  ghost predicate OwnPage(s: Stage, size: nat, id: int, p: nat) {
    && size > 0 && id in s.tables && p / size < |s.tables[id]|
    && s.tables[id][p / size] < |s.pool.refs| && s.pool.refs[s.tables[id][p / size]] == 1
  }

  lemma BatchEnds(s0: Stage, mem0: seq<Block>, s: Stage, mem: seq<Block>, copies: seq<(nat, nat)>, grown: set<int>, size: nat, h: Forecast)
    requires size > 0 && InBatch(s0, mem0, s, mem, grown, size) && GrownOnly(s0, s, grown) && Applied(mem0, copies, mem)
    requires HeldTracks(s0, s, h) && |s0.pool.refs| == |mem0|
    ensures s.prefixes == s0.prefixes <==> h.pages <= |s.pool.refs|
    ensures forall id, p: nat :: id in s.lengths && LengthOf(s0, id) <= p < s.lengths[id] ==> OwnPage(s, size, id, p)
  {
    hide Staged, Held, Counts, Preserved, Writable, Untouched, HeldTracks, Applied, Shaped;
    EndBatch(s0, mem0, s, mem, grown, size);
    StageSize(s0, mem0, s, mem, copies, grown, size);
    EvictedIff(s0, s, h);
    forall id, p: nat | id in s.lengths && LengthOf(s0, id) <= p < s.lengths[id] ensures OwnPage(s, size, id, p) {
      PageIsOwn(s0, s, size, id, p);
    }
  }

  /** Target `i` is the last one of the batch for its sequence. */
  ghost predicate LastFor(targets: seq<(int, int)>, i: nat)
    requires i < |targets|
  {
    forall j :: i < j < |targets| ==> targets[j].0 != targets[i].0
  }

  ghost predicate Named(targets: seq<(int, int)>, id: int) {
    exists i :: 0 <= i < |targets| && targets[i].0 == id
  }

  /** The last target for a sequence sets its length; no other length changes. */
  ghost predicate LengthsSet(before: map<int, nat>, after: map<int, nat>, targets: seq<(int, int)>) {
    && (forall i :: 0 <= i < |targets| && LastFor(targets, i) ==> targets[i].0 in after && after[targets[i].0] == targets[i].1)
    && forall id :: !Named(targets, id) ==> (id in after <==> id in before) && (id in before ==> after[id] == before[id])
  }

  lemma {:induction false} LengthsAre(lengths: map<int, nat>, targets: seq<(int, int)>)
    requires forall i :: 0 <= i < |targets| ==> targets[i].1 >= 0
    ensures LengthsSet(lengths, FinalLengths(lengths, targets), targets)
    decreases |targets|
  {
    hide LengthsSet;
    if targets == [] {
      NoLengthsSet(lengths);
    } else {
      var n := |targets| - 1;
      var front := targets[..n];
      LengthsAre(lengths, front);
      assert targets == front + [targets[n]];
      OneLengthSet(lengths, FinalLengths(lengths, front), front, targets[n].0, targets[n].1);
    }
  }

  lemma NoLengthsSet(lengths: map<int, nat>)
    ensures LengthsSet(lengths, lengths, [])
  {
  }

  lemma OneLengthSet(lengths: map<int, nat>, before: map<int, nat>, front: seq<(int, int)>, id: int, n: nat)
    requires LengthsSet(lengths, before, front)
    ensures LengthsSet(lengths, before[id := n], front + [(id, n)])
  {
    hide LastFor, Named;
    var targets, after := front + [(id, n)], before[id := n];
    forall i | 0 <= i < |targets| && LastFor(targets, i) ensures targets[i].0 in after && after[targets[i].0] == targets[i].1 {
      if i < |front| {
        LastBefore(front, id, n, i);
      }
    }
    forall x | !Named(targets, x) ensures (x in after <==> x in lengths) && (x in lengths ==> after[x] == lengths[x]) {
      NamedMore(front, id, n, x);
    }
  }

  lemma LastBefore(front: seq<(int, int)>, id: int, n: nat, i: nat)
    requires i < |front| && LastFor(front + [(id, n)], i)
    ensures LastFor(front, i) && front[i].0 != id
  {
    var targets := front + [(id, n)];
    assert targets[|front|].0 == id;
    forall j | i < j < |front| ensures front[j].0 != front[i].0 {
      assert targets[j] == front[j];
    }
  }

  lemma NamedMore(front: seq<(int, int)>, id: int, n: nat, x: int)
    ensures x == id || Named(front, x) ==> Named(front + [(id, n)], x)
  {
    var targets := front + [(id, n)];
    assert targets[|front|].0 == id;
    if Named(front, x) {
      var i :| 0 <= i < |front| && front[i].0 == x;
      assert targets[i].0 == x;
    }
  }

  /** Snapshots were evicted exactly when the batch needs more pages than there are with all of them kept. */
  lemma EvictedIff(s0: Stage, s: Stage, h: Forecast)
    requires HeldTracks(s0, s, h) && Counts(s.pool, Held(s)) && |s.pool.refs| == |s0.pool.refs|
    ensures s.prefixes == s0.prefixes <==> h.pages <= |s.pool.refs|
  {
    FreePlusDistinct(s.pool, Held(s));
    hide Counts, Bag, Support;
  }

  lemma PageIsOwn(s0: Stage, s: Stage, size: nat, id: int, p: nat)
    requires size > 0 && Shaped(s, size) && Counts(s.pool, Held(s)) && id in s.tables && id in s.lengths && LengthOf(s0, id) <= p < s.lengths[id]
    requires Writable(Held(s), s.tables[id], FirstNew(s0, id, size))
    ensures p / size < |s.tables[id]| && s.tables[id][p / size] < |s.pool.refs| && s.pool.refs[s.tables[id][p / size]] == 1
  {
    PositionPage(p, s.lengths[id], size);
    DivisionBounds(LengthOf(s0, id), size);
    DivisionBounds(p, size);
    MulMonotone(p / size + 1, LengthOf(s0, id) / size, size);
    MulMonotone(p / size, p / size, size);
    hide PageCount, Held, Counts, PageEnd;
    HeldInPool(s, s.tables[id][p / size]);
  }

  /** A nonempty snapshot of a front part of the tokens, within the limit. */
  predicate Adoptable(keys: set<seq<int>>, k: seq<int>, tokens: seq<int>, limit: int) {
    k in keys && |k| <= limit && k <= tokens
  }

  /** No adoptable snapshot outside `rest` is longer. */
  ghost predicate Longest(keys: set<seq<int>>, rest: set<seq<int>>, best: seq<int>, tokens: seq<int>, limit: int) {
    Adoptable(keys, best, tokens, limit) && forall k :: Adoptable(keys, k, tokens, limit) && k !in rest ==> |k| <= |best|
  }

  method LongestMatch(keys: set<seq<int>>, tokens: seq<int>, limit: int) returns (best: Option<seq<int>>)
    ensures best.None? ==> forall k :: Adoptable(keys, k, tokens, limit) ==> k == []
    ensures best.Some? ==> best.value != [] && Longest(keys, {}, best.value, tokens, limit)
  {
    best := None;
    var rest := keys;
    while rest != {}
      invariant rest <= keys
      invariant best.None? ==> forall k :: Adoptable(keys, k, tokens, limit) && k !in rest ==> k == []
      invariant best.Some? ==> best.value != [] && Longest(keys, rest, best.value, tokens, limit)
      decreases |rest|
    {
      var k :| k in rest;
      if |k| <= limit && k <= tokens && |k| > (if best.Some? then |best.value| else 0) {
        best := Some(k);
      }
      rest := rest - {k};
    }
  }

  lemma NothingHeld(s: Stage, size: nat, blocks: nat)
    requires size > 0 && s.tables == map[] && s.lengths == map[] && s.prefixes == map[] && |s.pool.refs| == |s.pool.free| == blocks
    requires (forall i :: 0 <= i < blocks ==> s.pool.refs[i] == 0) && forall k :: 0 <= k < blocks ==> s.pool.free[k] == blocks - 1 - k
    ensures Shaped(s, size) && Counts(s.pool, Held(s))
  {
    assert Held(s) == multiset{};
    forall b | 0 <= b < blocks ensures b in s.pool.free {
      assert s.pool.free[blocks - 1 - b] == b;
    }
  }

  /** Sharing a snapshot with a new sequence keeps every page counted. */
  lemma AdoptOk(s: Stage, size: nat, id: int, key: seq<int>)
    requires size > 0 && Shaped(s, size) && Counts(s.pool, Held(s)) && id !in s.tables && key in s.prefixes
    ensures Within(s.prefixes[key], |s.pool.refs|)
    ensures var t := s.(pool := RetainAll(s.pool, s.prefixes[key]), tables := s.tables[id := s.prefixes[key]], lengths := s.lengths[id := |key|]);
      Shaped(t, size) && Counts(t.pool, Held(t))
  {
    hide Counts, PageCount, Held, RetainAll;
    var pages := s.prefixes[key];
    forall j | 0 <= j < |pages| ensures pages[j] in Held(s) {
      SnapshotCounted(s, key, j);
    }
    RetainAllCounts(s.pool, Held(s), pages);
    var t := s.(pool := RetainAll(s.pool, pages), tables := s.tables[id := pages], lengths := s.lengths[id := |key|]);
    HeldAdopted(s, t, id, pages);
  }

  lemma HeldAdopted(s: Stage, t: Stage, id: int, pages: seq<nat>)
    requires id !in s.tables && t.tables == s.tables[id := pages] && t.prefixes == s.prefixes
    ensures Held(t) == Held(s) + multiset(pages)
  {
    BagUpdate(s.tables, id, pages);
    hide Bag;
  }

  /** A snapshot of the first `end` tokens of a sequence. */
  function Snapshot(s: Stage, size: nat, id: int, key: seq<int>): Stage
    requires size > 0 && id in s.tables
  {
    var pages := FrontPages(s.tables[id], PageCount(|key|, size));
    s.(pool := RetainAll(s.pool, pages), prefixes := s.prefixes[key := pages])
  }

  function FrontPages(table: seq<nat>, n: nat): seq<nat> {
    if n <= |table| then table[..n] else table
  }

  lemma SnapshotOk(s: Stage, size: nat, id: int, key: seq<int>)
    requires size > 0 && Shaped(s, size) && Counts(s.pool, Held(s)) && id in s.tables && key !in s.prefixes && |key| <= s.lengths[id]
    ensures Within(FrontPages(s.tables[id], PageCount(|key|, size)), |s.pool.refs|)
    ensures Shaped(Snapshot(s, size, id, key), size) && Counts(Snapshot(s, size, id, key).pool, Held(Snapshot(s, size, id, key)))
  {
    hide Counts, PageCount, Held, RetainAll;
    PageCountMonotone(|key|, s.lengths[id], size);
    var pages := FrontPages(s.tables[id], PageCount(|key|, size));
    forall j | 0 <= j < |pages| ensures pages[j] in Held(s) {
      TableCounted(s, id, j);
    }
    RetainAllCounts(s.pool, Held(s), pages);
    HeldSnapshot(s, Snapshot(s, size, id, key), key, pages);
  }

  /** Old snapshots are kept, and new ones are front parts of the tokens on the front pages of the table. */
  ghost predicate SnapshotsAdded(before: map<seq<int>, seq<nat>>, after: map<seq<int>, seq<nat>>, table: seq<nat>, tokens: seq<int>, size: nat)
    requires size > 0
  {
    && (forall k :: k in before ==> k in after && after[k] == before[k])
    && (forall k :: k in after && k !in before ==> k <= tokens && after[k] == FrontPages(table, PageCount(|k|, size)))
  }

  /** A new snapshot is a front part of the table, as long as its tokens need. */
  lemma NewSnapshots(before: map<seq<int>, seq<nat>>, after: map<seq<int>, seq<nat>>, s: Stage, id: int, tokens: seq<int>, size: nat)
    requires size > 0 && Shaped(s, size) && id in s.tables && id in s.lengths && s.lengths[id] == |tokens| && SnapshotsAdded(before, after, s.tables[id], tokens, size)
    ensures forall k :: k in after && k !in before ==>
      k <= tokens && |after[k]| <= |s.tables[id]| && after[k] == s.tables[id][..|after[k]|] && |after[k]| == PageCount(|k|, size)
  {
    hide PageCount;
    forall k | k in after && k !in before
      ensures |after[k]| <= |s.tables[id]| && after[k] == s.tables[id][..|after[k]|] && |after[k]| == PageCount(|k|, size)
    {
      PageCountMonotone(|k|, |tokens|, size);
    }
  }

  lemma NothingAdded(m: map<seq<int>, seq<nat>>, table: seq<nat>, tokens: seq<int>, size: nat)
    requires size > 0
    ensures SnapshotsAdded(m, m, table, tokens, size)
  {
  }

  lemma AddedStep(before: map<seq<int>, seq<nat>>, after: map<seq<int>, seq<nat>>, table: seq<nat>, tokens: seq<int>, size: nat, end: nat)
    requires size > 0 && SnapshotsAdded(before, after, table, tokens, size) && end <= |tokens|
    ensures var key := tokens[..end];
      SnapshotsAdded(before, if key in after then after else after[key := FrontPages(table, PageCount(|key|, size))], table, tokens, size)
  {
    hide FrontPages, PageCount;
  }

  lemma HeldSnapshot(s: Stage, t: Stage, key: seq<int>, pages: seq<nat>)
    requires key !in s.prefixes && t.prefixes == s.prefixes[key := pages] && t.tables == s.tables
    ensures Held(t) == Held(s) + multiset(pages)
  {
    BagUpdate(s.prefixes, key, pages);
    hide Bag;
  }

  /** The tokens of `j` full pages. */
  function Pages(j: nat, size: nat): nat {
    j * size
  }

  /** Every front part that ends with a full page has a snapshot. */
  ghost predicate FullPagesKept(keys: set<seq<int>>, tokens: seq<int>, size: nat) {
    forall j: nat :: 0 < j && Pages(j, size) < |tokens| ==> tokens[..Pages(j, size)] in keys
  }

  lemma FullPagesIn(ends: seq<nat>, keys: set<seq<int>>, tokens: seq<int>, size: nat)
    requires forall j: nat :: 0 < j && Pages(j, size) < |tokens| ==> Pages(j, size) in ends
    requires forall x :: 0 <= x < |ends| ==> ends[x] <= |tokens| && tokens[..ends[x]] in keys
    ensures FullPagesKept(keys, tokens, size)
  {
    hide Pages;
    forall j: nat | 0 < j && Pages(j, size) < |tokens| ensures tokens[..Pages(j, size)] in keys {
      var x :| 0 <= x < |ends| && ends[x] == Pages(j, size);
    }
  }

  /** Where snapshots end: at every full page, before the last token, and at the last token. */
  method SnapshotEnds(n: nat, size: nat) returns (ends: seq<nat>)
    requires n > 0 && size > 0
    ensures forall i :: 0 <= i < |ends| ==> 0 < ends[i] <= n
    ensures n in ends && (n > 1 ==> n - 1 in ends)
    ensures forall j: nat :: 0 < j && Pages(j, size) < n ==> Pages(j, size) in ends
  {
    ends := [];
    var end, j := size, 1;
    while end < n
      invariant j >= 1 && end == Pages(j, size) && forall i :: 0 <= i < |ends| ==> 0 < ends[i] <= n
      invariant forall x: nat :: 0 < x < j ==> Pages(x, size) in ends
      decreases n - end
    {
      ends := ends + [end];
      MulMonotone(j, j, size);
      end, j := end + size, j + 1;
    }
    forall x: nat | 0 < x && Pages(x, size) < n ensures Pages(x, size) in ends {
      MulMonotone(j, x, size);
    }
    if n > 1 {
      ends := ends + [n - 1];
    }
    ends := ends + [n];
    assert ends[|ends| - 1] == n;
  }

  lemma ReleaseOk(s: Stage, size: nat, id: int)
    requires size > 0 && Shaped(s, size) && Counts(s.pool, Held(s)) && id in s.tables
    ensures var t := s.(pool := UnrefEach(s.pool, s.tables[id]), tables := s.tables - {id}, lengths := s.lengths - {id});
      Shaped(t, size) && Counts(t.pool, Held(t)) && |t.pool.refs| == |s.pool.refs|
    ensures Covers(s.pool.refs, s.tables[id])
  {
    hide Counts, PageCount, UnrefEach;
    var pages := s.tables[id];
    BagRemove(s.tables, id);
    hide Bag;
    UnrefEachCounts(s.pool, Held(s), pages);
    CoversHeld(s.pool, Held(s), pages);
    assert Held(s) - multiset(pages) == Bag(s.tables - {id}) + Bag(s.prefixes);
  }

  /** Drops one lease per page, freeing a page with its last one. */
  method DropEach(p: Pool, pages: seq<nat>) returns (r: Pool)
    ensures r == UnrefEach(p, pages)
  {
    r := p;
    var rest := pages;
    while rest != []
      invariant UnrefEach(r, rest) == UnrefEach(p, pages)
      decreases |rest|
    {
      r := Unref(r, rest[0]);
      rest := rest[1..];
    }
  }

  /** Whatever got longer is marked as grown. */
  ghost predicate GrownOnly(s0: Stage, s: Stage, grown: set<int>) {
    forall id :: id in s.lengths && s.lengths[id] > LengthOf(s0, id) ==> id in grown
  }

  lemma GrownStep(s0: Stage, s: Stage, t: Stage, grown: set<int>, grown': set<int>, id: int, length: int)
    requires GrownOnly(s0, s, grown) && length >= 0 && length >= LengthOf(s, id) && t.lengths == s.lengths[id := length]
    requires grown' == grown + (if length > LengthOf(s, id) then {id} else {})
    ensures GrownOnly(s0, t, grown')
  {
  }

  lemma FirstGrown(s0: Stage)
    ensures FirstForecast(s0).grown == {}
  {
  }

  lemma StartFacts(s: Stage, mem: seq<Block>, size: nat)
    requires size > 0 && Shaped(s, size)
    ensures Applied(mem, [], mem) && Longer(s, s) && GrownOnly(s, s, {}) && s.tables.Keys == s.lengths.Keys
  {
  }

  lemma EndBatch(s0: Stage, mem0: seq<Block>, s: Stage, mem: seq<Block>, grown: set<int>, size: nat)
    requires size > 0 && InBatch(s0, mem0, s, mem, grown, size) && GrownOnly(s0, s, grown)
    ensures Shaped(s, size) && Counts(s.pool, Held(s)) && |s.pool.refs| == |mem| && Preserved(s0, mem0, s, mem, size)
    ensures forall id :: id in s.lengths && s.lengths[id] > LengthOf(s0, id) ==>
      id in s.tables && Writable(Held(s), s.tables[id], FirstNew(s0, id, size))
  {
    hide Shaped, PageCount, Held, Counts, Preserved, Writable, Untouched;
  }

  /** Runs the staged copies, oldest first. */
  method ApplyCopies(mem0: seq<Block>, copies: seq<(nat, nat)>, ghost mem: seq<Block>) returns (r: seq<Block>)
    requires Applied(mem0, copies, mem)
    ensures r == mem
  {
    r := mem0;
    for i := 0 to |copies|
      invariant |r| == |mem0| && r == ApplyAll(mem0, copies[..i])
    {
      assert copies[..i + 1][..i] == copies[..i];
      r := r[copies[i].1 := r[copies[i].0]];
    }
    assert copies[..|copies|] == copies;
  }
}
