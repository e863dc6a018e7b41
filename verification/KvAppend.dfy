/** Append transactions: room making, opening, commit and rollback keep the accounting invariant,
    and an append within its bounds never fails for lack of pages. */
module KvAppend {
  import opened Prelude
  import opened PageKeys
  import opened KvPool
  import opened FlatCache
  import opened KvSpec
  import opened KvInvariant

  // ---- Making room ----

  /** The copy flag is exact: it is set just when a partial tail is held by somebody else too. */
  ghost predicate CowExact(pool: Pool, partial: bool, cow: bool, tail: nat) {
    tail < |pool.refs| && (if cow then partial && pool.refs[tail] > 1 else partial ==> pool.refs[tail] == 1)
  }

  lemma EvictTail(s: Stock, capacity: nat, others: multiset<nat>, partial: bool, cow: bool, tail: nat)
    requires StockOk(s, capacity, others) && s.cache.lru != []
    requires CowExact(s.pool, partial, cow, tail) && (partial ==> tail in others)
    ensures CowExact(Evict(s).pool, partial, cow && Evict(s).pool.refs[tail] != 1, tail)
  {
    EvictOk(s, capacity, others);
    var t := Evict(s);
    hide CacheOk, Leased, NoDuplicates;
    assert t.pool == Unref(s.pool, s.cache.entries[s.cache.lru[0]]);
    hide Evict;
    if partial {
      HeldIsCounted(t.pool, others, Leased(t.cache.entries), tail);
    }
  }

  lemma HeldIsCounted(p: Pool, others: multiset<nat>, leases: multiset<nat>, b: nat)
    requires Counts(p, others + leases) && b in others
    ensures b < |p.refs| && p.refs[b] >= 1
  {
    assert b in others + leases;
  }

  lemma {:induction false} MakeRoomOk(s: Stock, capacity: nat, others: multiset<nat>, required: nat, partial: bool, cow: bool, tail: nat)
    requires StockOk(s, capacity, others)
    requires CowExact(s.pool, partial, cow, tail) && (partial ==> tail in others)
    ensures var r := MakeRoom(s, required, cow, tail);
      && StockOk(r.stock, capacity, others) && |r.stock.pool.refs| == |s.pool.refs|
      && CowExact(r.stock.pool, partial, r.cow, tail)
      && (r.cow ==> cow)
      && (|r.stock.pool.free| >= required + (if r.cow then 1 else 0) || r.stock.cache.lru == [])
    decreases |s.cache.lru|
  {
    if s.cache.lru != [] {
      EvictOk(s, capacity, others);
      EvictTail(s, capacity, others, partial, cow, tail);
      var t := Evict(s);
      assert |t.pool.refs| == |s.pool.refs| && tail < |t.pool.refs|;
      hide StockOk, Evict, CacheOk, Counts, Leased, CowExact;
      if !(|s.pool.free| >= required + (if cow then 1 else 0)) {
        MakeRoomOk(t, capacity, others, required, partial, cow && t.pool.refs[tail] != 1, tail);
      }
    }
  }

  // ---- Admission safety ----

  /** With an empty cache, a state within its promises has a free page for every page still promised,
      and one more when some page is shared. */
  lemma PromisedPagesAreFree(s: KvState, pool: Pool, id: RequestId, count: nat, cow: bool, tail: nat)
    requires ConfigOk(s.cfg) && Bounded(s) && id in s.sequences && WithinBounds(s, id, count) && s.reservations.Keys != {}
    requires |pool.refs| == s.cfg.maxBlocks && Counts(pool, Bag(Tables(s.sequences)))
    requires cow ==> tail < |pool.refs| && pool.refs[tail] > 1
    ensures Required(s.sequences[id], count) + (if cow then 1 else 0) <= |pool.free|
  {
    var tables := Tables(s.sequences);
    var held := Bag(tables);
    FreePlusDistinct(pool, held);
    DistinctAtMostOccurrences(held);
    BagSize(tables);
    assert cow ==> held[tail] >= 2;
    var sizes, promises := Lengths(tables), Commitments(s.sequences, s.reservations);
    hide Counts, Bag, Total;
    assert forall x :: x in sizes ==> x in promises && sizes[x] <= promises[x];
    TotalSlack(sizes, promises, id);
    assert sizes[id] == |s.sequences[id].blocks|;
  }

  lemma NoLeases(c: Flat, capacity: nat)
    requires CacheOk(c, capacity) && c.lru == []
    ensures Leased(c.entries) == multiset{}
  {
    assert c.entries.Keys == {} by {
      if k :| k in c.entries {
        assert k in c.lru;
      }
    }
    assert LeaseTable(c.entries).Keys == {};
  }

  /** Whether an idle sequence ends in a partial page. */
  predicate Partial(q: PagedSequence, size: nat)
    requires size > 0
  {
    q.used % size != 0
  }

  lemma TailFacts(s: KvState, id: RequestId)
    requires MetaOk(s) && s.pending.None? && id in s.sequences
    ensures var q := s.sequences[id];
      && CowExact(s.pool, Partial(q, s.cfg.blockTokens), NeedsCopy(s, q), Tail(q))
      && (Partial(q, s.cfg.blockTokens) ==> q.blocks != [] && Tail(q) in Owned(s))
      && StockOk(StockOf(s), s.cfg.cacheBlocks, Owned(s))
  {
    var q := s.sequences[id];
    TableOwned(s, id);
    assert Held(s) == Owned(s) + Leased(s.cache.entries);
    PageCountBounds(q.used, s.cfg.blockTokens);
    hide PageCount, Leased, Bag;
    if q.blocks != [] {
      assert Tail(q) in multiset(q.blocks);
      assert Tail(q) in Held(s);
    }
  }

  /** The stock the append works on, after the eviction loop. */
  ghost function RoomFor(s: KvState, id: RequestId, count: nat): Room
    requires ConfigOk(s.cfg) && id in s.sequences
  {
    MakeRoom(StockOf(s), Required(s.sequences[id], count), NeedsCopy(s, s.sequences[id]), Tail(s.sequences[id]))
  }

  lemma RoomForOk(s: KvState, id: RequestId, count: nat)
    requires MetaOk(s) && s.pending.None? && id in s.sequences
    ensures var r, q := RoomFor(s, id, count), s.sequences[id];
      && StockOk(r.stock, s.cfg.cacheBlocks, Owned(s)) && |r.stock.pool.refs| == |s.pool.refs|
      && CowExact(r.stock.pool, Partial(q, s.cfg.blockTokens), r.cow, Tail(q))
      && (|r.stock.pool.free| >= Required(q, count) + (if r.cow then 1 else 0) || r.stock.cache.lru == [])
  {
    var q := s.sequences[id];
    TailFacts(s, id);
    hide StockOk, Owned, CacheOk, Counts, Held;
    MakeRoomOk(StockOf(s), s.cfg.cacheBlocks, Owned(s), Required(q, count), Partial(q, s.cfg.blockTokens), NeedsCopy(s, q), Tail(q));
  }

  /** Admission safety: while reservations exist, an append that stays within its bounds always finds its pages,
      even when the cache is full and the shared tail needs one more page for its copy. */
  lemma WithinBoundsNeverStarves(s: KvState, id: RequestId, count: nat)
    requires StateOk(s) && s.pending.None? && id in s.sequences && s.reservations.Keys != {} && WithinBounds(s, id, count)
    ensures Required(s.sequences[id], count) + (if RoomFor(s, id, count).cow then 1 else 0) <= |RoomFor(s, id, count).stock.pool.free|
  {
    RoomForOk(s, id, count);
    var r := RoomFor(s, id, count);
    hide RoomFor, MakeRoom, MetaOk, Counts, Leased;
    if r.stock.cache.lru == [] {
      NoLeases(r.stock.cache, s.cfg.cacheBlocks);
      assert Owned(s) + Leased(r.stock.cache.entries) == Bag(Tables(s.sequences));
      PromisedPagesAreFree(s, r.stock.pool, id, count, r.cow, Tail(s.sequences[id]));
    }
  }

  /** The state after the eviction loop. */
  ghost function Evicted(s: KvState, id: RequestId, count: nat): KvState
    requires ConfigOk(s.cfg) && id in s.sequences
  {
    s.(pool := RoomFor(s, id, count).stock.pool, cache := RoomFor(s, id, count).stock.cache)
  }

  predicate ValidAppend(s: KvState, id: RequestId, tokens: seq<Token>) {
    && s.pending.None? && id in s.sequences
    && tokens != [] && s.sequences[id].used + |tokens| <= s.cfg.context && ValidTokens(tokens, s.cfg.vocabulary)
  }

  /** A valid append within its logical bounds opens exactly when the room made suffices. */
  lemma PrepareOutcome(s: KvState, id: RequestId, tokens: seq<Token>)
    requires ConfigOk(s.cfg)
    ensures !ValidAppend(s, id, tokens) ==> PrepareAppend(s, id, tokens).state == s && PrepareAppend(s, id, tokens).reply.Thrown? && PrepareAppend(s, id, tokens).reply.error != Fault
    ensures ValidAppend(s, id, tokens) ==>
      var q := s.sequences[id];
      var count := PageCount(q.used + |tokens|, s.cfg.blockTokens);
      var t, cow := Evicted(s, id, count), RoomFor(s, id, count).cow;
      PrepareAppend(s, id, tokens) ==
        if !WithinBounds(s, id, count) then Refuse(s, Capacity)
        else if Required(q, count) + (if cow then 1 else 0) <= |t.pool.free|
        then Outcome(Open(t, id, tokens, Required(q, count), cow), Value(()))
        else Refuse(t, Capacity)
  {
    hide WithinBounds, MakeRoom, PageCount, Open, ValidTokens;
  }

  /** While reservations exist, exactly the logical bound decides: an otherwise valid append is refused for capacity
      if and only if it leaves its reservation (or the unreserved remainder). */
  lemma AppendRefusedIffOutOfBounds(s: KvState, id: RequestId, tokens: seq<Token>)
    requires StateOk(s) && ValidAppend(s, id, tokens) && s.reservations.Keys != {}
    ensures var count := PageCount(s.sequences[id].used + |tokens|, s.cfg.blockTokens);
      PrepareAppend(s, id, tokens).reply == (if WithinBounds(s, id, count) then Value(()) else Thrown(Capacity))
    ensures var count, q := PageCount(s.sequences[id].used + |tokens|, s.cfg.blockTokens), s.sequences[id];
      PrepareAppend(s, id, tokens).reply.Value? <==>
        if id in s.reservations then count <= s.reservations[id] else Committed(s) + count <= s.cfg.maxBlocks + |q.blocks|
  {
    BoundsMean(s, id, tokens);
    var count := PageCount(s.sequences[id].used + |tokens|, s.cfg.blockTokens);
    PrepareOutcome(s, id, tokens);
    hide PrepareAppend, RoomFor, WithinBounds, MetaOk, Bounded, Open;
    if WithinBounds(s, id, count) {
      WithinBoundsNeverStarves(s, id, count);
    }
  }

  lemma BoundsMean(s: KvState, id: RequestId, tokens: seq<Token>)
    requires StateOk(s) && ValidAppend(s, id, tokens) && s.reservations.Keys != {}
    ensures var count, q := PageCount(s.sequences[id].used + |tokens|, s.cfg.blockTokens), s.sequences[id];
      WithinBounds(s, id, count) <==>
        if id in s.reservations then count <= s.reservations[id] else Committed(s) + count <= s.cfg.maxBlocks + |q.blocks|
  {
    assert SequenceOk(s.cfg, s.sequences[id]);
    PageCountMonotone(s.sequences[id].used, s.sequences[id].used + |tokens|, s.cfg.blockTokens);
    hide MetaOk, Bounded, PageCount, Committed;
  }

  /** Pages an append needs beyond the reach of eviction: the distinct pages of all tables, the new ones,
      and one for the copy of a partial tail shared between tables. */
  ghost function PhysicalNeed(s: KvState, id: RequestId, count: nat): nat
    requires ConfigOk(s.cfg) && id in s.sequences
  {
    var q := s.sequences[id];
    var pages := Bag(Tables(s.sequences));
    Required(q, count) + (if Partial(q, s.cfg.blockTokens) && pages[Tail(q)] > 1 then 1 else 0) + |Support(pages)|
  }

  lemma RoomIffPhysicalNeed(s: KvState, id: RequestId, count: nat)
    requires MetaOk(s) && s.pending.None? && id in s.sequences
    ensures var r := RoomFor(s, id, count);
      Required(s.sequences[id], count) + (if r.cow then 1 else 0) <= |r.stock.pool.free| <==> PhysicalNeed(s, id, count) <= s.cfg.maxBlocks
  {
    assert ConfigOk(s.cfg) && |s.pool.refs| == s.cfg.maxBlocks;
    hide MetaOk, RoomFor, StockOk, Bag, Tables, CowExact, Required, Support, Owned, Partial;
    RoomForOk(s, id, count);
    TailFacts(s, id);
    RoomAgainstTables(s, RoomFor(s, id, count).stock, RoomFor(s, id, count).cow, s.sequences[id]);
  }

  /** Without reservations the distinct pages of the sequences decide: cache leases never stand in the way. */
  lemma AppendRefusedIffExhausted(s: KvState, id: RequestId, tokens: seq<Token>)
    requires MetaOk(s) && ValidAppend(s, id, tokens) && s.reservations.Keys == {}
    ensures var count := PageCount(s.sequences[id].used + |tokens|, s.cfg.blockTokens);
      PrepareAppend(s, id, tokens).reply == if PhysicalNeed(s, id, count) <= s.cfg.maxBlocks then Value(()) else Thrown(Capacity)
  {
    var count := PageCount(s.sequences[id].used + |tokens|, s.cfg.blockTokens);
    assert WithinBounds(s, id, count);
    PrepareOutcome(s, id, tokens);
    RoomIffPhysicalNeed(s, id, count);
    hide MetaOk, RoomFor, WithinBounds, PrepareAppend, PhysicalNeed, Required, ValidTokens, Open;
  }

  lemma RoomAgainstTables(s: KvState, stock: Stock, cow: bool, q: PagedSequence)
    requires ConfigOk(s.cfg) && s.pending.None? && |stock.pool.refs| == s.cfg.maxBlocks
    requires StockOk(stock, s.cfg.cacheBlocks, Owned(s))
    requires CowExact(stock.pool, Partial(q, s.cfg.blockTokens), cow, Tail(q))
    requires Partial(q, s.cfg.blockTokens) ==> Tail(q) in Owned(s)
    ensures var pages := Bag(Tables(s.sequences));
      && |stock.pool.free| + |Support(pages)| <= s.cfg.maxBlocks
      && (!cow ==> !(Partial(q, s.cfg.blockTokens) && pages[Tail(q)] > 1))
      && (stock.cache.lru == [] ==>
            && |stock.pool.free| + |Support(pages)| == s.cfg.maxBlocks
            && (cow <==> Partial(q, s.cfg.blockTokens) && pages[Tail(q)] > 1))
  {
    var pages := Bag(Tables(s.sequences));
    var held := pages + Leased(stock.cache.entries);
    assert Owned(s) == pages;
    FreePlusDistinct(stock.pool, held);
    SupportMonotone(pages, held);
    if stock.cache.lru == [] {
      NoLeases(stock.cache, s.cfg.cacheBlocks);
      assert held == pages;
    }
  }

  // ---- Opening ----

  lemma HeldOpened(s: KvState, id: RequestId, tokens: seq<Token>, required: nat, cow: bool)
    requires ConfigOk(s.cfg) && s.pending.None? && id in s.sequences && required + (if cow then 1 else 0) <= |s.pool.free|
    requires cow ==> s.sequences[id].blocks != []
    ensures Held(Open(s, id, tokens, required, cow)) ==
      Held(s) + multiset(Taken(s.pool, required)) +
      (if cow then multiset{s.pool.free[|s.pool.free| - 1 - required]} else multiset{})
  {
    var t := Open(s, id, tokens, required, cow);
    var blocks, table := s.sequences[id].blocks, t.sequences[id].blocks;
    var added := Taken(s.pool, required);
    var page := if cow then s.pool.free[|s.pool.free| - 1 - required] else 0;
    var replacement := if cow then multiset{page} else multiset{};
    OpenTable(blocks, added, cow, page);
    OwnedSetTable(s, id, t.sequences[id]);
    var source := PendingSource(t.pending);
    assert source == if cow then multiset{blocks[|blocks| - 1]} else multiset{};
    assert t.sequences == s.sequences[id := t.sequences[id]] && t.cache == s.cache;
    hide Tables, Bag, Leased, Taken, Open, PendingSource;
    OpenAlgebra(Bag(Tables(t.sequences)), Bag(Tables(s.sequences)), multiset(blocks), multiset(table), multiset(added),
                Leased(s.cache.entries), source, replacement);
    assert PendingSource(s.pending) == multiset{} by {
      HeldIdle(s);
    }
  }

  lemma HeldIdle(s: KvState)
    requires s.pending.None?
    ensures PendingSource(s.pending) == multiset{}
  {
  }

  /** Trading the last page for `page` and appending `added`. */
  lemma OpenTable(blocks: seq<nat>, added: seq<nat>, cow: bool, page: nat)
    requires cow ==> blocks != []
    ensures cow ==>
      multiset(blocks[|blocks| - 1 := page] + added) + multiset{blocks[|blocks| - 1]} == multiset(blocks) + multiset(added) + multiset{page}
    ensures multiset(blocks + added) + multiset{} == multiset(blocks) + multiset(added) + multiset{}
  {
    if cow {
      ReplaceLast(blocks, page);
      assert multiset(blocks[|blocks| - 1 := page] + added) == multiset(blocks[|blocks| - 1 := page]) + multiset(added);
    }
  }

  lemma OpenAlgebra(after: multiset<nat>, before: multiset<nat>, blocks: multiset<nat>, table: multiset<nat>,
                    added: multiset<nat>, leases: multiset<nat>, source: multiset<nat>, replacement: multiset<nat>)
    requires after + blocks == before + table
    requires table + source == blocks + added + replacement
    ensures after + source + leases == before + multiset{} + leases + added + replacement
  {
    forall x: nat
      ensures (after + source + leases)[x] == (before + multiset{} + leases + added + replacement)[x]
    {
      assert (after + blocks)[x] == (before + table)[x];
      assert (table + source)[x] == (blocks + added + replacement)[x];
    }
  }

  lemma ReplaceLast(s: seq<nat>, x: nat)
    requires s != []
    ensures multiset(s[|s| - 1 := x]) + multiset{s[|s| - 1]} == multiset(s) + multiset{x}
  {
    MultisetSnoc(s);
    MultisetSnoc(s[|s| - 1 := x]);
    assert s[|s| - 1 := x][..|s| - 1] == s[..|s| - 1];
  }

  lemma PoolOpened(pool: Pool, held: multiset<nat>, required: nat, cow: bool)
    requires Counts(pool, held) && required + (if cow then 1 else 0) <= |pool.free|
    ensures var grown := AllocateMany(pool, required);
      Counts(if cow then Allocate(grown) else grown,
             held + multiset(Taken(pool, required)) + (if cow then multiset{pool.free[|pool.free| - 1 - required]} else multiset{}))
  {
    AllocateManyCounts(pool, held, required);
    AllocateManyFree(pool, required);
    var grown := AllocateMany(pool, required);
    var more := held + multiset(Taken(pool, required));
    hide Counts, Taken, AllocateMany, Allocate, Within;
    if cow {
      AllocateCounts(grown, more);
    } else {
      assert more + multiset{} == more;
    }
  }

  lemma OpenCounts(s: KvState, id: RequestId, tokens: seq<Token>, required: nat, cow: bool)
    requires ConfigOk(s.cfg) && s.pending.None? && id in s.sequences && required + (if cow then 1 else 0) <= |s.pool.free|
    requires cow ==> s.sequences[id].blocks != []
    requires Counts(s.pool, Held(s))
    ensures var t := Open(s, id, tokens, required, cow);
      Counts(t.pool, Held(t)) && |t.pool.refs| == |s.pool.refs|
  {
    hide Counts, Held, Taken, AllocateMany, Allocate;
    HeldOpened(s, id, tokens, required, cow);
    PoolOpened(s.pool, Held(s), required, cow);
  }

  /** After opening, everything from the first writable page on is held by this sequence alone. */
  lemma OpenSole(s: KvState, id: RequestId, tokens: seq<Token>, required: nat, cow: bool)
    requires ConfigOk(s.cfg) && s.pending.None? && id in s.sequences && required + (if cow then 1 else 0) <= |s.pool.free|
    requires SequenceOk(s.cfg, s.sequences[id])
    requires Counts(s.pool, Held(s)) && CowExact(s.pool, Partial(s.sequences[id], s.cfg.blockTokens), cow, Tail(s.sequences[id]))
    ensures var t, q := Open(s, id, tokens, required, cow), s.sequences[id];
      SoleHolder(Held(t), t.sequences[id].blocks, FirstWritable(q.used, |q.blocks|, s.cfg.blockTokens))
  {
    hide Counts, Held, Taken, PageCount, AllocateMany, Allocate;
    var q := s.sequences[id];
    var t := Open(s, id, tokens, required, cow);
    var table := t.sequences[id].blocks;
    PageCountBounds(q.used, s.cfg.blockTokens);
    HeldOpened(s, id, tokens, required, cow);
    forall j | 0 <= j < |table| && FirstWritable(q.used, |q.blocks|, s.cfg.blockTokens) <= j
      ensures Held(t)[table[j]] == 1
    {
      OpenSoleAt(s.pool, Held(s), required, cow, q.blocks, table, j);
    }
  }

  lemma OpenSoleAt(pool: Pool, held: multiset<nat>, required: nat, cow: bool, blocks: seq<nat>, table: seq<nat>, j: nat)
    requires Counts(pool, held) && required + (if cow then 1 else 0) <= |pool.free| && (cow ==> blocks != [])
    requires table == (if cow then blocks[|blocks| - 1 := pool.free[|pool.free| - 1 - required]] else blocks) + Taken(pool, required)
    requires |blocks| <= j + 1 && j < |table|
    requires j + 1 == |blocks| && !cow ==> blocks[j] < |pool.refs| && pool.refs[blocks[j]] == 1
    ensures (held + multiset(Taken(pool, required)) +
             (if cow then multiset{pool.free[|pool.free| - 1 - required]} else multiset{}))[table[j]] == 1
  {
    var added := Taken(pool, required);
    TakenFromFree(pool, held, required);
    if j >= |blocks| {
      var b := added[j - |blocks|];
      assert table[j] == b;
      DistinctMultiplicity(added, j - |blocks|);
      assert held[b] == 0;
    } else if cow {
      assert table[j] == pool.free[|pool.free| - 1 - required];
      assert table[j] !in added;
    } else {
      assert held[table[j]] == 1;
      assert table[j] !in added;
    }
  }

  lemma DistinctMultiplicity(s: seq<nat>, i: nat)
    requires NoDuplicates(s) && i < |s|
    ensures multiset(s)[s[i]] == 1
  {
    assert s == s[..i] + [s[i]] + s[i + 1..];
    assert s[i] !in s[..i] && s[i] !in s[i + 1..];
  }

  lemma StockChanged(s: KvState, stock: Stock)
    requires MetaOk(s) && s.pending.None?
    requires StockOk(stock, s.cfg.cacheBlocks, Owned(s)) && |stock.pool.refs| == |s.pool.refs|
    ensures MetaOk(s.(pool := stock.pool, cache := stock.cache))
    ensures Owned(s.(pool := stock.pool, cache := stock.cache)) == Owned(s)
  {
    var t := s.(pool := stock.pool, cache := stock.cache);
    assert Held(t) == Owned(s) + Leased(stock.cache.entries);
    hide Counts, Held, CacheOk, SequenceOk;
  }

  lemma OpenPendingOk(s: KvState, id: RequestId, tokens: seq<Token>, count: nat, cow: bool)
    requires ConfigOk(s.cfg) && s.pending.None? && id in s.sequences && SequenceOk(s.cfg, s.sequences[id])
    requires tokens != [] && s.sequences[id].used + |tokens| <= s.cfg.context
    requires count == PageCount(s.sequences[id].used + |tokens|, s.cfg.blockTokens)
    requires Required(s.sequences[id], count) + (if cow then 1 else 0) <= |s.pool.free|
    requires Counts(s.pool, Held(s)) && CowExact(s.pool, Partial(s.sequences[id], s.cfg.blockTokens), cow, Tail(s.sequences[id]))
    ensures var t := Open(s, id, tokens, Required(s.sequences[id], count), cow);
      t.pending.Some? && t.cfg == s.cfg && PendingOk(t, t.pending.value)
  {
    var q, size := s.sequences[id], s.cfg.blockTokens;
    PageCountMonotone(q.used, q.used + |tokens|, size);
    PageCountBounds(q.used, size);
    var required := Required(q, count);
    assert cow ==> q.used % size != 0 && q.blocks != [];
    hide PageCount;
    OpenSole(s, id, tokens, required, cow);
    OpenShape(s, id, tokens, required, cow);
    hide Counts, Held, SoleHolder, Open, FirstWritable, CowExact, OriginalTable;
  }

  lemma OpenMetaOk(s: KvState, id: RequestId, tokens: seq<Token>, count: nat, cow: bool)
    requires MetaOk(s) && s.pending.None? && id in s.sequences && (cow ==> s.sequences[id].blocks != [])
    requires tokens != [] && s.sequences[id].used + |tokens| <= s.cfg.context
    requires count == PageCount(s.sequences[id].used + |tokens|, s.cfg.blockTokens)
    requires Required(s.sequences[id], count) + (if cow then 1 else 0) <= |s.pool.free|
    requires CowExact(s.pool, Partial(s.sequences[id], s.cfg.blockTokens), cow, Tail(s.sequences[id]))
    ensures MetaOk(Open(s, id, tokens, Required(s.sequences[id], count), cow))
  {
    hide Counts, Held, CacheOk, PageCount, SequenceOk, PendingOk, Open, CowExact, Required;
    var required := Required(s.sequences[id], count);
    OpenCounts(s, id, tokens, required, cow);
    OpenPendingOk(s, id, tokens, count, cow);
    OpenShape(s, id, tokens, required, cow);
  }

  /** What opening writes down, and what it leaves alone. */
  lemma OpenShape(s: KvState, id: RequestId, tokens: seq<Token>, required: nat, cow: bool)
    requires ConfigOk(s.cfg) && id in s.sequences && required + (if cow then 1 else 0) <= |s.pool.free|
    requires cow ==> s.sequences[id].blocks != []
    ensures var t, q := Open(s, id, tokens, required, cow), s.sequences[id];
      && t.cfg == s.cfg && t.cache == s.cache && t.reservations == s.reservations
      && t.sequences.Keys == s.sequences.Keys && (forall x :: x in s.sequences && x != id ==> t.sequences[x] == s.sequences[x])
      && t.sequences[id].used == q.used && t.sequences[id].tokens == q.tokens && |t.sequences[id].blocks| == |q.blocks| + required
      && t.pending.Some?
      && var p := t.pending.value;
      && p.id == id && p.tokens == tokens && p.original == |q.blocks| && !p.copied && p.copy.Some? == cow
      && OriginalTable(t.sequences[id].blocks, p) == q.blocks
      && (cow ==> p.copy.value.destination == t.sequences[id].blocks[|q.blocks| - 1] && p.copy.value.validTokens == q.used % s.cfg.blockTokens)
      && (cow ==> p.copy.value.source == q.blocks[|q.blocks| - 1])
  {
    var t, q := Open(s, id, tokens, required, cow), s.sequences[id];
    var table, n := t.sequences[id].blocks, |q.blocks|;
    if cow {
      assert table[..n] == q.blocks[n - 1 := table[n - 1]];
      assert table[..n][n - 1 := q.blocks[n - 1]] == q.blocks;
    } else {
      assert table[..n] == q.blocks;
    }
  }

  lemma OpenBounded(s: KvState, id: RequestId, tokens: seq<Token>, count: nat, cow: bool)
    requires ConfigOk(s.cfg) && Bounded(s) && id in s.sequences && WithinBounds(s, id, count)
    requires Required(s.sequences[id], count) + (if cow then 1 else 0) <= |s.pool.free|
    requires cow ==> s.sequences[id].blocks != []
    ensures Bounded(Open(s, id, tokens, Required(s.sequences[id], count), cow))
  {
    var q := s.sequences[id];
    var t := Open(s, id, tokens, Required(q, count), cow);
    OpenShape(s, id, tokens, Required(q, count), cow);
    assert t.sequences == s.sequences[id := t.sequences[id]];
    hide Open, Commitments, Total;
    CommittedSetTable(s.sequences, s.reservations, id, t.sequences[id]);
  }

  lemma EvictedOk(s: KvState, id: RequestId, count: nat)
    requires StateOk(s) && s.pending.None? && id in s.sequences
    ensures StateOk(Evicted(s, id, count))
    ensures Committed(Evicted(s, id, count)) == Committed(s)
    ensures var q := s.sequences[id];
      && CowExact(Evicted(s, id, count).pool, Partial(q, s.cfg.blockTokens), RoomFor(s, id, count).cow, Tail(q))
      && (RoomFor(s, id, count).cow ==> q.blocks != [])
  {
    RoomForOk(s, id, count);
    TailFacts(s, id);
    hide MetaOk, StockOk, RoomFor, Owned, Commitments;
    StockChanged(s, RoomFor(s, id, count).stock);
    CowMeansTail(Evicted(s, id, count).pool, s.sequences[id], s.cfg.blockTokens, RoomFor(s, id, count).cow);
  }

  lemma OpenEvictedOk(s: KvState, id: RequestId, tokens: seq<Token>, count: nat)
    requires ConfigOk(s.cfg) && ValidAppend(s, id, tokens) && count == PageCount(s.sequences[id].used + |tokens|, s.cfg.blockTokens) && StateOk(s)
    requires WithinBounds(s, id, count)
    requires Required(s.sequences[id], count) + (if RoomFor(s, id, count).cow then 1 else 0) <= |Evicted(s, id, count).pool.free|
    ensures StateOk(Open(Evicted(s, id, count), id, tokens, Required(s.sequences[id], count), RoomFor(s, id, count).cow))
  {
    hide MetaOk, Bounded, RoomFor, Open, CowExact, PageCount, ValidTokens, Required, Partial, Commitments, Total;
    EvictedOk(s, id, count);
    var t, cow := Evicted(s, id, count), RoomFor(s, id, count).cow;
    OpenMetaOk(t, id, tokens, count, cow);
    OpenBounded(t, id, tokens, count, cow);
  }

  /** Opening a transaction keeps the invariant, whether it succeeds or is refused after evictions. */
  lemma PrepareAppendOk(s: KvState, id: RequestId, tokens: seq<Token>)
    requires StateOk(s)
    ensures StateOk(PrepareAppend(s, id, tokens).state)
  {
    assert ConfigOk(s.cfg);
    PrepareOutcome(s, id, tokens);
    hide StateOk, PrepareAppend, RoomFor, Evicted, Open, PageCount, ValidTokens, Required, WithinBounds;
    if ValidAppend(s, id, tokens) {
      var count := PageCount(s.sequences[id].used + |tokens|, s.cfg.blockTokens);
      EvictedOk(s, id, count);
      if WithinBounds(s, id, count) &&
         Required(s.sequences[id], count) + (if RoomFor(s, id, count).cow then 1 else 0) <= |Evicted(s, id, count).pool.free| {
        OpenEvictedOk(s, id, tokens, count);
      }
    }
  }

  lemma CowMeansTail(pool: Pool, q: PagedSequence, size: nat, cow: bool)
    requires size > 0 && CowExact(pool, Partial(q, size), cow, Tail(q)) && (Partial(q, size) ==> q.blocks != [])
    ensures cow ==> q.blocks != []
  {
  }

  // ---- Commit and rollback ----

  lemma CommitSequence(s: KvState)
    requires ConfigOk(s.cfg) && s.pending.Some? && PendingOk(s, s.pending.value)
    ensures var p := s.pending.value;
      var q := s.sequences[p.id];
      SequenceOk(s.cfg, q.(used := q.used + |p.tokens|, tokens := q.tokens + p.tokens))
  {
    hide SoleHolder, Held, PageCount, FirstWritable;
  }

  lemma HeldCommitted(s: KvState)
    requires s.pending.Some? && s.pending.value.id in s.sequences && (s.pending.value.copy.Some? ==> s.pending.value.copied)
    ensures Held(Commit(s).state) == Held(s) - PendingSource(s.pending)
    ensures PendingSource(s.pending) <= Held(s)
  {
    var p := s.pending.value;
    var t := Commit(s).state;
    OwnedSetTable(s, p.id, t.sequences[p.id]);
    hide Bag, Tables, Leased, PendingSource;
    Cancel(Bag(Tables(t.sequences)), Bag(Tables(s.sequences)), multiset(s.sequences[p.id].blocks));
    HeldIdle(t);
    CommitAlgebra(Bag(Tables(s.sequences)), PendingSource(s.pending), Leased(s.cache.entries));
  }

  lemma CommitAlgebra(tables: multiset<nat>, source: multiset<nat>, leases: multiset<nat>)
    ensures tables + source + leases - source == tables + multiset{} + leases
    ensures source <= tables + source + leases
  {
  }

  lemma CommitCounts(s: KvState)
    requires s.pending.Some? && s.pending.value.id in s.sequences && Counts(s.pool, Held(s))
    requires s.pending.value.copy.Some? ==> s.pending.value.copied
    ensures var t := Commit(s).state;
      Counts(t.pool, Held(t)) && |t.pool.refs| == |s.pool.refs|
  {
    HeldCommitted(s);
    hide Held, Counts;
    var copy := s.pending.value.copy;
    if copy.Some? {
      assert copy.value.source in PendingSource(s.pending);
      UnrefCounts(s.pool, Held(s), copy.value.source);
    } else {
      assert Held(s) - multiset{} == Held(s);
    }
  }

  lemma CommitMetaOk(s: KvState)
    requires MetaOk(s) && s.pending.Some? && s.pending.value.id in s.sequences && (s.pending.value.copy.Some? ==> s.pending.value.copied)
    ensures MetaOk(Commit(s).state)
  {
    hide Counts, Held, CacheOk, SequenceOk, PendingOk, Unref;
    CommitSequence(s);
    CommitCounts(s);
  }

  lemma PendingIsKnown(s: KvState)
    requires MetaOk(s) && s.pending.Some?
    ensures s.pending.value.id in s.sequences
  {
    hide Counts, Held, CacheOk, SequenceOk, SoleHolder, PageCount;
  }

  lemma CommitOk(s: KvState)
    requires StateOk(s) && s.pending.Some?
    ensures s.pending.value.id in s.sequences && StateOk(Commit(s).state)
  {
    hide MetaOk, Commitments;
    PendingIsKnown(s);
    var p := s.pending.value;
    if !(p.copy.Some? && !p.copied) {
      CommitMetaOk(s);
      CommittedSetTable(s.sequences, s.reservations, p.id, Commit(s).state.sequences[p.id]);
    }
  }

  /** Rollback gives back the pages the transaction took, and only those. */
  lemma HeldRolledBack(s: KvState)
    requires s.pending.Some? && s.pending.value.id in s.sequences
    requires var p, table := s.pending.value, s.sequences[s.pending.value.id].blocks;
      p.original <= |table| && (p.copy.Some? ==> p.original > 0 && p.copy.value.destination == table[p.original - 1])
    ensures var p, table := s.pending.value, s.sequences[s.pending.value.id].blocks;
      var taken := multiset(table[p.original..]) + (if p.copy.Some? then multiset{p.copy.value.destination} else multiset{});
      taken <= Held(s) && Held(Rollback(s)) == Held(s) - taken
  {
    var p := s.pending.value;
    var t := Rollback(s);
    var table, restored := s.sequences[p.id].blocks, t.sequences[p.id].blocks;
    OwnedSetTable(s, p.id, t.sequences[p.id]);
    TableOwned(s, p.id);
    RolledBackTable(table, p);
    hide Bag, Tables, Leased, PendingSource, OriginalTable;
    HeldIdle(t);
    var given := if p.copy.Some? then multiset{p.copy.value.destination} else multiset{};
    assert multiset(restored) + multiset(table[p.original..]) + given == multiset(table) + PendingSource(s.pending) by {
      SourceOf(s);
    }
    RollbackAlgebra(Bag(Tables(t.sequences)), Bag(Tables(s.sequences)), multiset(table), multiset(restored),
                    multiset(table[p.original..]) + given, PendingSource(s.pending), Leased(s.cache.entries));
  }

  lemma SourceOf(s: KvState)
    requires s.pending.Some?
    ensures PendingSource(s.pending) == if s.pending.value.copy.Some? then multiset{s.pending.value.copy.value.source} else multiset{}
  {
  }

  lemma RolledBackTable(table: seq<nat>, p: Pending)
    requires p.original <= |table| && (p.copy.Some? ==> p.original > 0 && p.copy.value.destination == table[p.original - 1])
    ensures var restored := OriginalTable(table, p);
      && (p.copy.Some? ==> multiset(restored) + multiset(table[p.original..]) + multiset{p.copy.value.destination} == multiset(table) + multiset{p.copy.value.source})
      && (p.copy.None? ==> multiset(restored) + multiset(table[p.original..]) + multiset{} == multiset(table) + multiset{})
  {
    var n := p.original;
    assert table == table[..n] + table[n..];
    if p.copy.Some? {
      ReplaceLast(table[..n], p.copy.value.source);
    }
  }

  lemma RollbackAlgebra(after: multiset<nat>, before: multiset<nat>, table: multiset<nat>, restored: multiset<nat>,
                        taken: multiset<nat>, source: multiset<nat>, leases: multiset<nat>)
    requires after + table == before + restored && table <= before
    requires restored + taken == table + source
    ensures taken <= before + source + leases
    ensures after + multiset{} + leases == before + source + leases - taken
  {
    forall x: nat
      ensures (after + multiset{} + leases)[x] + taken[x] == (before + source + leases)[x]
    {
      assert (after + table)[x] == (before + restored)[x];
      assert (restored + taken)[x] == (table + source)[x];
    }
  }

  lemma PoolRolledBack(pool: Pool, held: multiset<nat>, tail: seq<nat>, extra: bool, page: nat)
    requires Counts(pool, held) && multiset(tail) + (if extra then multiset{page} else multiset{}) <= held
    ensures Counts(if extra then Unref(UnrefAll(pool, tail), page) else UnrefAll(pool, tail),
                   held - (multiset(tail) + (if extra then multiset{page} else multiset{})))
  {
    hide Counts, UnrefAll;
    UnrefAllCounts(pool, held, tail);
    var rest := held - multiset(tail);
    if extra {
      UnrefCounts(UnrefAll(pool, tail), rest, page);
      assert rest - multiset{page} == held - (multiset(tail) + multiset{page});
    } else {
      assert rest == held - (multiset(tail) + multiset{});
    }
  }

  lemma RollbackCounts(s: KvState)
    requires s.pending.Some? && s.pending.value.id in s.sequences && Counts(s.pool, Held(s))
    requires var p, table := s.pending.value, s.sequences[s.pending.value.id].blocks;
      p.original <= |table| && (p.copy.Some? ==> p.original > 0 && p.copy.value.destination == table[p.original - 1])
    ensures var t := Rollback(s);
      Counts(t.pool, Held(t)) && |t.pool.refs| == |s.pool.refs|
  {
    var p, table := s.pending.value, s.sequences[s.pending.value.id].blocks;
    hide Held, Counts, UnrefAll, Unref;
    HeldRolledBack(s);
    PoolRolledBack(s.pool, Held(s), table[p.original..], p.copy.Some?, if p.copy.Some? then p.copy.value.destination else 0);
  }

  lemma RollbackMetaOk(s: KvState)
    requires MetaOk(s) && s.pending.Some?
    ensures s.pending.value.id in s.sequences && s.pending.value.original <= |s.sequences[s.pending.value.id].blocks|
    ensures MetaOk(Rollback(s))
  {
    PendingShape(s);
    hide Counts, Held, CacheOk, SequenceOk, PendingOk, Unref, UnrefAll, OriginalTable, PageCount;
    RollbackCounts(s);
  }

  lemma PendingShape(s: KvState)
    requires ConfigOk(s.cfg) && s.pending.Some? && PendingOk(s, s.pending.value)
    ensures var p := s.pending.value;
      && p.id in s.sequences
      && var q := s.sequences[p.id];
      && p.original <= |q.blocks| && (p.copy.Some? ==> p.original > 0 && p.copy.value.destination == q.blocks[p.original - 1])
      && SequenceOk(s.cfg, q.(blocks := OriginalTable(q.blocks, p)))
      && |OriginalTable(q.blocks, p)| <= |q.blocks|
  {
    hide SoleHolder, Held, PageCount, FirstWritable;
  }

  lemma RollbackOk(s: KvState)
    requires StateOk(s) && s.pending.Some?
    ensures s.pending.value.id in s.sequences && s.pending.value.original <= |s.sequences[s.pending.value.id].blocks|
    ensures StateOk(Rollback(s))
  {
    RollbackMetaOk(s);
    PendingShape(s);
    hide MetaOk, Commitments, OriginalTable, PendingOk;
    CommittedSetTable(s.sequences, s.reservations, s.pending.value.id, Rollback(s).sequences[s.pending.value.id]);
  }

  /** An opened and rolled back append leaves every table, reservation and the cache after its evictions as they were;
      only the order of the free list may differ. */
  lemma RollbackUndoesOpen(s: KvState, id: RequestId, tokens: seq<Token>, count: nat, cow: bool)
    requires ConfigOk(s.cfg) && Counts(s.pool, Held(s))
    requires s.pending.None? && id in s.sequences && (cow ==> s.sequences[id].blocks != [])
    requires Required(s.sequences[id], count) + (if cow then 1 else 0) <= |s.pool.free|
    ensures var t := Rollback(Open(s, id, tokens, Required(s.sequences[id], count), cow));
      && t.sequences == s.sequences && t.reservations == s.reservations && t.cache == s.cache && t.pending == None
      && t.pool.refs == s.pool.refs && (forall b :: b in t.pool.free <==> b in s.pool.free)
  {
    var required := Required(s.sequences[id], count);
    var o := Open(s, id, tokens, required, cow);
    hide Counts, Held, CacheOk, SequenceOk, PendingOk, Open, OriginalTable, PageCount, Required, Unref, UnrefAll;
    OpenShape(s, id, tokens, required, cow);
    OpenCounts(s, id, tokens, required, cow);
    RollbackCounts(o);
    var t := Rollback(o);
    TableRestored(o.sequences, s.sequences, id);
    SameHolders(s, t);
    SamePool(t.pool, s.pool, Held(s));
  }

  lemma TableRestored(changed: map<RequestId, PagedSequence>, before: map<RequestId, PagedSequence>, id: RequestId)
    requires changed.Keys == before.Keys && id in before && (forall x :: x in before && x != id ==> changed[x] == before[x])
    requires changed[id].used == before[id].used && changed[id].tokens == before[id].tokens
    ensures changed[id := changed[id].(blocks := before[id].blocks)] == before
  {
  }

  lemma SameHolders(s: KvState, t: KvState)
    requires s.sequences == t.sequences && s.cache == t.cache && s.pending.None? && t.pending.None?
    ensures Held(s) == Held(t)
  {
  }

  lemma SamePool(p: Pool, r: Pool, held: multiset<nat>)
    requires Counts(p, held) && Counts(r, held) && |p.refs| == |r.refs|
    ensures p.refs == r.refs && forall b :: b in p.free <==> b in r.free
  {
  }
}
