/** What the manager's operations do to the prefix cache. An append evicts the oldest keys, and only until there is room
    (miniprefix/src/kv/kv_manager.cpp:117-126); reuse refreshes its path; publishing keeps the most recent keys. */
module KvEviction {
  import opened Prelude
  import opened PageKeys
  import opened KvPool
  import opened FlatCache
  import opened KvSpec
  import opened KvInvariant
  import opened PrefixMatch
  import opened LruOrder
  import opened KvOperations
  import opened KvAppend

  /** The `n` oldest leases dropped. */
  function EvictMany(s: Stock, n: nat): Stock
    decreases n
  {
    if n == 0 then s else EvictMany(Evict(s), n - 1)
  }

  /** The newest keys stay, in order and with their pages. */
  ghost predicate CacheShrunk(before: Flat, after: Flat, n: nat) {
    && n <= |before.lru| && after.lru == before.lru[n..]
    && (forall k :: k in after.entries <==> k in after.lru)
    && forall k :: k in after.entries ==> k in before.entries && after.entries[k] == before.entries[k]
  }

  lemma {:induction false} EvictManyOk(s: Stock, capacity: nat, others: multiset<nat>, n: nat)
    requires StockOk(s, capacity, others) && n <= |s.cache.lru|
    ensures StockOk(EvictMany(s, n), capacity, others) && |EvictMany(s, n).pool.refs| == |s.pool.refs|
    ensures CacheShrunk(s.cache, EvictMany(s, n).cache, n)
    decreases n
  {
    hide StockOk, Evict, CacheShrunk;
    if n > 0 {
      EvictOk(s, capacity, others);
      EvictShrinks(s, capacity, others);
      var t := Evict(s);
      EvictManyOk(t, capacity, others, n - 1);
      ShrunkTwice(s.cache, t.cache, EvictMany(s, n).cache, n - 1);
    } else {
      NothingShrunk(s, capacity, others);
    }
  }

  lemma NothingShrunk(s: Stock, capacity: nat, others: multiset<nat>)
    requires StockOk(s, capacity, others)
    ensures CacheShrunk(s.cache, s.cache, 0)
  {
    hide Counts, Leased, NoDuplicates;
  }

  lemma EvictShrinks(s: Stock, capacity: nat, others: multiset<nat>)
    requires StockOk(s, capacity, others) && s.cache.lru != []
    ensures CacheShrunk(s.cache, Evict(s).cache, 1) && |Evict(s).pool.refs| == |s.pool.refs|
  {
    EvictOk(s, capacity, others);
    hide Counts, Leased;
  }

  lemma ShrunkTwice(a: Flat, b: Flat, c: Flat, n: nat)
    requires CacheShrunk(a, b, 1) && CacheShrunk(b, c, n)
    ensures CacheShrunk(a, c, n + 1)
  {
    assert a.lru[1..][n..] == a.lru[n + 1..];
  }

  /** Somebody else holds the partial tail too. */
  predicate Shared(p: Pool, partial: bool, tail: nat) {
    partial && tail < |p.refs| && p.refs[tail] > 1
  }

  /** The free pages cover the new ones and, while the partial tail is shared, its copy. */
  predicate Enough(p: Pool, required: nat, partial: bool, tail: nat) {
    |p.free| >= required + if Shared(p, partial, tail) then 1 else 0
  }

  /** The eviction loop drops the least number of oldest leases after which there is room, or all of them. */
  lemma {:induction false} MakeRoomLeast(s: Stock, capacity: nat, others: multiset<nat>, required: nat, partial: bool, cow: bool, tail: nat)
      returns (n: nat)
    requires StockOk(s, capacity, others) && CowExact(s.pool, partial, cow, tail) && (partial ==> tail in others)
    ensures n <= |s.cache.lru| && MakeRoom(s, required, cow, tail).stock == EvictMany(s, n)
    ensures forall m: nat :: m < n ==> !Enough(EvictMany(s, m).pool, required, partial, tail)
    ensures n == |s.cache.lru| || Enough(EvictMany(s, n).pool, required, partial, tail)
    ensures MakeRoom(s, required, cow, tail).cow == Shared(EvictMany(s, n).pool, partial, tail)
    decreases |s.cache.lru|
  {
    hide StockOk, Evict, CacheOk, Counts, Leased, CowExact, MakeRoom, Enough, Shared;
    if s.cache.lru == [] || Enough(s.pool, required, partial, tail) {
      RoomNow(s, required, cow, tail, partial);
      n := 0;
    } else {
      EvictOk(s, capacity, others);
      EvictTail(s, capacity, others, partial, cow, tail);
      var t := Evict(s);
      Unrolled(s, required, cow, tail, partial);
      var rest := MakeRoomLeast(t, capacity, others, required, partial, cow && t.pool.refs[tail] != 1, tail);
      n := rest + 1;
      forall m: nat | m < n ensures !Enough(EvictMany(s, m).pool, required, partial, tail) {
        if m > 0 {
          assert EvictMany(s, m) == EvictMany(t, m - 1);
        }
      }
    }
  }

  lemma RoomNow(s: Stock, required: nat, cow: bool, tail: nat, partial: bool)
    requires CowExact(s.pool, partial, cow, tail) && (s.cache.lru == [] || Enough(s.pool, required, partial, tail))
    ensures MakeRoom(s, required, cow, tail) == Room(s, Shared(s.pool, partial, tail))
  {
  }

  lemma Unrolled(s: Stock, required: nat, cow: bool, tail: nat, partial: bool)
    requires CowExact(s.pool, partial, cow, tail) && s.cache.lru != [] && s.cache.lru[0] in s.cache.entries
    requires !Enough(s.pool, required, partial, tail) && |Evict(s).cache.lru| < |s.cache.lru|
    ensures tail < |Evict(s).pool.refs| == |s.pool.refs|
    ensures MakeRoom(s, required, cow, tail) == MakeRoom(Evict(s), required, cow && Evict(s).pool.refs[tail] != 1, tail)
  {
    assert |Evict(s).pool.refs| == |s.pool.refs|;
    hide Evict;
  }

  /** After `m` evictions the append would find its pages: the new ones, and one for the copy of a tail still shared. */
  ghost predicate RoomAfter(s: KvState, id: RequestId, tokens: seq<Token>, m: nat)
    requires s.cfg.blockTokens > 0 && id in s.sequences
  {
    var q, p := s.sequences[id], EvictMany(StockOf(s), m).pool;
    var last := if q.blocks == [] then 0 else q.blocks[|q.blocks| - 1];
    |p.free| + |q.blocks| >=
      PageCount(q.used + |tokens|, s.cfg.blockTokens) + if q.used % s.cfg.blockTokens != 0 && last < |p.refs| && p.refs[last] > 1 then 1 else 0
  }

  /** What preparing an append does to the cache: the oldest keys go, the least number of them that makes room. */
  lemma AppendEvicts(s: KvState, id: RequestId, tokens: seq<Token>) returns (n: nat)
    requires ConfigOk(s.cfg) && StateOk(s)
    ensures CacheShrunk(s.cache, PrepareAppend(s, id, tokens).state.cache, n)
    ensures n > 0 ==> id in s.sequences && forall m: nat :: m < n ==> !RoomAfter(s, id, tokens, m)
    ensures PrepareAppend(s, id, tokens).reply.Value? ==> id in s.sequences && RoomAfter(s, id, tokens, n)
  {
    PrepareOutcome(s, id, tokens);
    hide PrepareAppend, RoomFor, WithinBounds, Open, ValidTokens, PageCount, RoomAfter;
    UnchangedCache(s);
    n := 0;
    if ValidAppend(s, id, tokens) {
      var count := PageCount(s.sequences[id].used + |tokens|, s.cfg.blockTokens);
      n := RoomEvicts(s, id, tokens);
      OpenCache(Evicted(s, id, count), id, tokens, Required(s.sequences[id], count), RoomFor(s, id, count).cow);
      if !WithinBounds(s, id, count) {
        n := 0;
      }
    }
  }

  lemma UnchangedCache(s: KvState)
    requires StateOk(s)
    ensures CacheShrunk(s.cache, s.cache, 0)
  {
    hide Counts, Bounded, PendingOk, SequenceOk, NoDuplicates;
  }

  lemma OpenCache(s: KvState, id: RequestId, tokens: seq<Token>, required: nat, cow: bool)
    requires ConfigOk(s.cfg) && id in s.sequences
    ensures required + (if cow then 1 else 0) <= |s.pool.free| ==> Open(s, id, tokens, required, cow).cache == s.cache
  {
    hide Taken, AllocateMany, Allocate;
  }

  lemma RoomEvicts(s: KvState, id: RequestId, tokens: seq<Token>) returns (n: nat)
    requires ConfigOk(s.cfg) && StateOk(s) && ValidAppend(s, id, tokens)
    ensures var q, count := s.sequences[id], PageCount(s.sequences[id].used + |tokens|, s.cfg.blockTokens);
      var r := RoomFor(s, id, count);
      && CacheShrunk(s.cache, r.stock.cache, n) && (forall m: nat :: m < n ==> !RoomAfter(s, id, tokens, m))
      && (Required(q, count) + (if r.cow then 1 else 0) <= |r.stock.pool.free| ==> RoomAfter(s, id, tokens, n))
  {
    hide MetaOk, Bounded, PageCount, CowExact, StockOk, Owned, Enough, RoomAfter, MakeRoom, NeedsCopy, Partial, EvictMany, CacheShrunk, Required;
    var q, size := s.sequences[id], s.cfg.blockTokens;
    var count := PageCount(q.used + |tokens|, size);
    var partial, tail := Partial(q, size), Tail(q);
    TailFacts(s, id);
    EnoughRoom(s, id, tokens);
    n := MakeRoomLeast(StockOf(s), s.cfg.cacheBlocks, Owned(s), Required(q, count), partial, NeedsCopy(s, q), tail);
    EvictManyOk(StockOf(s), s.cfg.cacheBlocks, Owned(s), n);
    EnoughByCow(RoomFor(s, id, count), Required(q, count), partial, tail);
  }

  lemma EnoughByCow(r: Room, required: nat, partial: bool, tail: nat)
    requires r.cow == Shared(r.stock.pool, partial, tail)
    ensures required + (if r.cow then 1 else 0) <= |r.stock.pool.free| <==> Enough(r.stock.pool, required, partial, tail)
  {
  }

  lemma EnoughRoom(s: KvState, id: RequestId, tokens: seq<Token>)
    requires ConfigOk(s.cfg) && StateOk(s) && ValidAppend(s, id, tokens)
    ensures var q, count := s.sequences[id], PageCount(s.sequences[id].used + |tokens|, s.cfg.blockTokens);
      forall m: nat :: RoomAfter(s, id, tokens, m) <==>
        Enough(EvictMany(StockOf(s), m).pool, Required(q, count), Partial(q, s.cfg.blockTokens), Tail(q))
  {
    var q := s.sequences[id];
    assert SequenceOk(s.cfg, q);
    PageCountMonotone(q.used, q.used + |tokens|, s.cfg.blockTokens);
    hide StateOk, PageCount, EvictMany;
  }

  // ---- Reuse and publication ----

  /** Reuse leaves the leases alone and makes the matched path the newest part of the order. */
  lemma ReuseRefreshes(s: KvState, id: RequestId, prompt: seq<Token>)
    requires ConfigOk(s.cfg) && StateOk(s) && s.cfg.cacheBlocks > 0 && ReusePrefix(s, id, prompt).reply.Value?
    ensures var path, c := Lookup(s.cache.entries.Keys, prompt, 0, s.cfg.blockTokens).path, ReusePrefix(s, id, prompt).state.cache;
      c.entries == s.cache.entries && c.lru == Keeping(s.cache.lru, path) + path
  {
    var path := Lookup(s.cache.entries.Keys, prompt, 0, s.cfg.blockTokens).path;
    PathDistinct(s.cache.entries.Keys, prompt, s.cfg.blockTokens);
    CacheSound(s);
    TouchAllOk(s.cache, s.cfg.cacheBlocks, path);
    TouchAllOrder(s.cache, s.cfg.cacheBlocks, path, |path|);
    assert path[..|path|] == path;
    hide StateOk, Lookup, TouchAll, Keeping, RetainAll, UnrefAll, FoundBlocks, Committed, CacheOk, ValidTokens;
  }

  lemma CacheSound(s: KvState)
    requires StateOk(s)
    ensures CacheOk(s.cache, s.cfg.cacheBlocks)
  {
    hide Counts, Bounded, PendingOk, SequenceOk, CacheOk;
  }

  /** Publishing keeps exactly the most recent keys: the pages of the sequence newest, in order, then the others by age. */
  lemma PublicationOrder(s: KvState, id: RequestId)
    requires ConfigOk(s.cfg) && StateOk(s) && CachePrefix(s, id).reply.Value?
    ensures id in s.sequences
    ensures var q, c := s.sequences[id], CachePrefix(s, id).state.cache;
      var n := PublishCount(q.tokens, q.blocks, s.cfg.blockTokens, s.cfg.cacheBlocks);
      && Published(s.cache.lru, c.lru, PathKeys(q.tokens, s.cfg.blockTokens, n), s.cfg.cacheBlocks)
      && PagesKept(s.cache.entries, c.entries, q.tokens, q.blocks, s.cfg.blockTokens, n)
  {
    var q := s.sequences[id];
    TailFacts(s, id);
    TableOwned(s, id);
    hide StateOk, StockOk, PublishPages, Published, PagesKept, PathKeys, PageCount;
    assert forall j :: 0 <= j < |q.blocks| ==> q.blocks[j] in multiset(q.blocks);
    var n := PublishCount(q.tokens, q.blocks, s.cfg.blockTokens, s.cfg.cacheBlocks);
    PublishPagesOrder(StockOf(s), s.cfg.cacheBlocks, s.cfg.blockTokens, Owned(s), q.tokens, q.blocks, n);
    PublishPagesEntries(StockOf(s), s.cfg.cacheBlocks, s.cfg.blockTokens, Owned(s), q.tokens, q.blocks, n);
  }

  /** Exactly when a reuse goes through: a valid prompt, an empty sequence, and the pages of the match within its
      reservation and, while anything is reserved, within the pool beside everything promised. */
  lemma ReuseAccepted(s: KvState, id: RequestId, prompt: seq<Token>)
    requires ConfigOk(s.cfg) && StateOk(s)
    ensures ReusePrefix(s, id, prompt).reply.Value? <==>
      && prompt != [] && |prompt| <= s.cfg.context && ValidTokens(prompt, s.cfg.vocabulary)
      && s.pending.None? && id in s.sequences && s.sequences[id] == EmptySequence
      && var pages := if s.cfg.cacheBlocks == 0 then 0 else PageCount(Lookup(s.cache.entries.Keys, prompt, 0, s.cfg.blockTokens).length, s.cfg.blockTokens);
      && (id in s.reservations ==> pages <= s.reservations[id])
      && (s.reservations.Keys != {} ==> Committed(s) + (if id in s.reservations then 0 else pages) <= s.cfg.maxBlocks)
  {
    hide StateOk, PageCount, Lookup, Adopt, Committed, ValidTokens;
    if prompt != [] && |prompt| <= s.cfg.context && s.pending.None? && id in s.sequences && s.sequences[id] == EmptySequence {
      AdoptFrame(s, id, prompt);
      AdoptCosts(s, id, prompt);
    }
  }

  lemma AdoptCosts(s: KvState, id: RequestId, prompt: seq<Token>)
    requires ConfigOk(s.cfg) && StateOk(s) && prompt != [] && |prompt| <= s.cfg.context && id in s.sequences && s.sequences[id] == EmptySequence
    ensures id in Adopt(s, id, prompt).sequences
    ensures var pages := if s.cfg.cacheBlocks == 0 then 0 else PageCount(Lookup(s.cache.entries.Keys, prompt, 0, s.cfg.blockTokens).length, s.cfg.blockTokens);
      && |Adopt(s, id, prompt).sequences[id].blocks| == pages
      && Committed(Adopt(s, id, prompt)) == Committed(s) + if id in s.reservations then 0 else pages
  {
    AdoptedSequence(s, prompt);
    LookupAtLeast(s.cache.entries.Keys, prompt, 0, s.cfg.blockTokens);
    AdoptFrame(s, id, prompt);
    CommittedSetTable(s.sequences, s.reservations, id, Adopt(s, id, prompt).sequences[id]);
    hide StateOk, PageCount, Lookup, FoundBlocks, RetainAll, TouchAll, Commitments, Leased;
  }
}
