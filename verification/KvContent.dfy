/** Payload correctness: every committed position and every cached page holds the rows of its own causal history. */
module KvContent {
  import opened Arithmetic
  import opened PageKeys
  import opened KvPool
  import opened FlatCache
  import opened PrefixMatch
  import opened KvSpec
  import opened KvInvariant
  import opened KvAppend
  import opened CausalModel

  type Memory = seq<seq<Payload>>

  /** Position `i`, in slot `i - start`, holds the row of the history that ends there. */
  ghost predicate SlotHolds(m: Model, page: seq<Payload>, k: Key, start: nat, i: nat)
    requires start <= i < |k| <= start + |page|
  {
    page[i - start] == Row(m, k[..i + 1])
  }

  /** The valid slots of the page named `k` hold the rows of exactly the history `k`. */
  ghost predicate Holds(m: Model, size: nat, page: seq<Payload>, k: Key)
    requires size > 0
  {
    && k != [] && |page| == size
    && var start := PageStart(|k|, size);
    && |k| <= start + size
    && forall i :: start <= i < |k| ==> SlotHolds(m, page, k, start, i)
  }

  ghost predicate PageHolds(m: Model, size: nat, mem: Memory, b: nat, k: Key)
    requires size > 0
  {
    b < |mem| && Holds(m, size, mem[b], k)
  }

  /** Page `j` of the table holds page `j` of the history. */
  ghost predicate TableHolds(m: Model, size: nat, mem: Memory, table: seq<nat>, tokens: seq<Token>)
    requires size > 0
  {
    && PageCount(|tokens|, size) <= |table|
    && forall j :: 0 <= j < PageCount(|tokens|, size) ==> PageHolds(m, size, mem, table[j], PageKey(tokens, j, size))
  }

  ghost predicate CacheHolds(m: Model, size: nat, mem: Memory, entries: map<Key, nat>)
    requires size > 0
  {
    forall k :: k in entries ==> PageHolds(m, size, mem, entries[k], k)
  }

  /** The table of committed pages: during an append, the one a rollback would restore. */
  function CommittedTable(s: KvState, id: RequestId): seq<nat>
    requires id in s.sequences
  {
    if s.pending.Some? && s.pending.value.id == id then OriginalTable(s.sequences[id].blocks, s.pending.value)
    else s.sequences[id].blocks
  }

  ghost predicate SequencesHold(m: Model, s: KvState, mem: Memory)
    requires ConfigOk(s.cfg)
  {
    forall id :: id in s.sequences ==> TableHolds(m, s.cfg.blockTokens, mem, CommittedTable(s, id), s.sequences[id].tokens)
  }

  ghost predicate MemoryShape(cfg: Config, mem: Memory) {
    |mem| == cfg.maxBlocks && forall b :: 0 <= b < |mem| ==> |mem[b]| == cfg.blockTokens
  }

  ghost predicate ContentOk(m: Model, s: KvState, mem: Memory)
    requires ConfigOk(s.cfg)
  {
    && MemoryShape(s.cfg, mem)
    && SequencesHold(m, s, mem)
    && CacheHolds(m, s.cfg.blockTokens, mem, s.cache.entries)
    && (s.pending.Some? && s.pending.value.id in s.sequences && (s.pending.value.copy.None? || s.pending.value.copied) ==>
          TableHolds(m, s.cfg.blockTokens, mem, s.sequences[s.pending.value.id].blocks, s.sequences[s.pending.value.id].tokens))
  }

  // ---- Facts about pages ----

  /** A shorter name on the same page asks for less. */
  lemma HoldsFront(m: Model, size: nat, page: seq<Payload>, k: Key, e: nat)
    requires size > 0 && Holds(m, size, page, k) && PageStart(|k|, size) < e <= |k|
    ensures Holds(m, size, page, k[..e])
  {
    var start := PageStart(|k|, size);
    SamePage(e, |k|, size);
    hide PageStart;
    forall i | start <= i < e ensures SlotHolds(m, page, k[..e], start, i) {
      assert SlotHolds(m, page, k, start, i);
      assert k[..e][..i + 1] == k[..i + 1];
    }
  }

  lemma SamePage(e: nat, n: nat, size: nat)
    requires size > 0 && 0 < n && PageStart(n, size) < e <= n
    ensures PageStart(e, size) == PageStart(n, size)
  {
    PageStartBounds(n, size);
    var q := (n - 1) / size;
    QuotientUnique(e - 1, size, q);
  }

  /** Only the valid slots matter. */
  lemma HoldsStable(m: Model, size: nat, page: seq<Payload>, changed: seq<Payload>, k: Key, valid: nat)
    requires size > 0 && Holds(m, size, page, k) && |changed| == size
    requires |k| - PageStart(|k|, size) <= valid <= size && page[..valid] == changed[..valid]
    ensures Holds(m, size, changed, k)
  {
    var start := PageStart(|k|, size);
    hide PageStart, Row;
    forall i | start <= i < |k| ensures SlotHolds(m, changed, k, start, i) {
      assert SlotHolds(m, page, k, start, i);
      assert page[..valid][i - start] == changed[..valid][i - start];
    }
  }

  lemma EmptyHolds(m: Model, size: nat, mem: Memory, table: seq<nat>)
    requires size > 0
    ensures TableHolds(m, size, mem, table, [])
  {
    PageCountBounds(0, size);
  }

  // ---- Sharing, caching and release never touch a payload ----

  lemma ForkContent(m: Model, s: KvState, mem: Memory, source: RequestId, target: RequestId)
    requires ConfigOk(s.cfg) && ContentOk(m, s, mem)
    ensures ContentOk(m, Fork(s, source, target).state, mem)
  {
    hide TableHolds, CacheHolds, MemoryShape, RetainAll;
  }

  lemma CreateContent(m: Model, s: KvState, mem: Memory, id: RequestId)
    requires ConfigOk(s.cfg) && ContentOk(m, s, mem)
    ensures ContentOk(m, Create(s, id).state, mem)
  {
    EmptyHolds(m, s.cfg.blockTokens, mem, []);
    hide TableHolds, CacheHolds, MemoryShape;
  }

  lemma DropContent(m: Model, s: KvState, mem: Memory, id: RequestId)
    requires ConfigOk(s.cfg) && ContentOk(m, s, mem) && s.pending.None? && id in s.sequences
    ensures ContentOk(m, Drop(s, id), mem)
  {
    EmptyHolds(m, s.cfg.blockTokens, mem, []);
    hide TableHolds, CacheHolds, MemoryShape, UnrefAll;
  }

  lemma ReleaseContent(m: Model, s: KvState, mem: Memory, id: RequestId)
    requires ConfigOk(s.cfg) && ContentOk(m, s, mem)
    ensures ContentOk(m, Release(s, id).state, mem)
  {
    hide TableHolds, CacheHolds, MemoryShape, UnrefAll;
  }

  lemma ResetContent(m: Model, s: KvState, mem: Memory, id: RequestId)
    requires ConfigOk(s.cfg) && ContentOk(m, s, mem)
    ensures ContentOk(m, Reset(s, id).state, mem)
  {
    if s.pending.None? && id in s.sequences {
      DropContent(m, s, mem, id);
    }
    hide ContentOk, Drop;
  }

  /** Without cache leases every other claim stands. */
  lemma ClearCacheContent(m: Model, s: KvState, mem: Memory, pool: Pool)
    requires ConfigOk(s.cfg) && ContentOk(m, s, mem)
    ensures ContentOk(m, s.(pool := pool, cache := Flat(map[], [])), mem)
  {
    hide TableHolds, PageHolds, MemoryShape, OriginalTable;
    var t := s.(pool := pool, cache := Flat(map[], []));
    assert forall id :: id in s.sequences ==> CommittedTable(t, id) == CommittedTable(s, id);
  }

  /** Fewer leases claim less. */
  lemma FewerEntriesHold(m: Model, size: nat, mem: Memory, entries: map<Key, nat>, fewer: map<Key, nat>)
    requires size > 0 && CacheHolds(m, size, mem, entries)
    requires forall k :: k in fewer ==> k in entries && fewer[k] == entries[k]
    ensures CacheHolds(m, size, mem, fewer)
  {
    hide PageHolds;
  }

  lemma EntryHolds(m: Model, size: nat, mem: Memory, entries: map<Key, nat>, k: Key, b: nat)
    requires size > 0 && CacheHolds(m, size, mem, entries) && PageHolds(m, size, mem, b, k)
    ensures CacheHolds(m, size, mem, entries[k := b])
  {
    hide PageHolds;
  }

  lemma {:induction false} PublishContent(m: Model, size: nat, mem: Memory, s: Stock, capacity: nat, tokens: seq<Token>, table: seq<nat>, n: nat)
    requires size > 0 && CacheHolds(m, size, mem, s.cache.entries) && TableHolds(m, size, mem, table, tokens)
    requires n <= |table| && n <= PageCount(|tokens|, size)
    ensures CacheHolds(m, size, mem, PublishPages(s, capacity, size, tokens, table, n).cache.entries)
    decreases n
  {
    if n > 0 {
      PublishContent(m, size, mem, s, capacity, tokens, table, n - 1);
      var before := PublishPages(s, capacity, size, tokens, table, n - 1);
      assert PageHolds(m, size, mem, table[n - 1], PageKey(tokens, n - 1, size));
      hide PageHolds, CacheHolds, TableHolds, PageCount, PageKey, PublishPages;
      PublishPageContent(m, size, mem, before, capacity, PageKey(tokens, n - 1, size), table[n - 1]);
      assert PublishPages(s, capacity, size, tokens, table, n) ==
        PublishPage(before, capacity, PageKey(tokens, n - 1, size), table[n - 1]) by {
        PublishPagesStep(s, capacity, size, tokens, table, n);
      }
    }
  }

  lemma PublishPagesStep(s: Stock, capacity: nat, size: nat, tokens: seq<Token>, table: seq<nat>, n: nat)
    requires 0 < n <= |table|
    ensures PublishPages(s, capacity, size, tokens, table, n) ==
      PublishPage(PublishPages(s, capacity, size, tokens, table, n - 1), capacity, PageKey(tokens, n - 1, size), table[n - 1])
  {
  }

  lemma PublishPageContent(m: Model, size: nat, mem: Memory, s: Stock, capacity: nat, key: Key, page: nat)
    requires size > 0 && CacheHolds(m, size, mem, s.cache.entries) && PageHolds(m, size, mem, page, key)
    ensures CacheHolds(m, size, mem, PublishPage(s, capacity, key, page).cache.entries)
  {
    var retained := s.(pool := Retain(s.pool, page));
    var room := if |s.cache.lru| == capacity then Evict(retained) else retained;
    FewerEntriesHold(m, size, mem, s.cache.entries, room.cache.entries);
    EntryHolds(m, size, mem, room.cache.entries, key, page);
    hide CacheHolds, PageHolds;
  }

  lemma CachePrefixContent(m: Model, s: KvState, mem: Memory, id: RequestId)
    requires MetaOk(s) && ContentOk(m, s, mem)
    ensures ContentOk(m, CachePrefix(s, id).state, mem)
  {
    var t := CachePrefix(s, id).state;
    if t != s {
      var q, size := s.sequences[id], s.cfg.blockTokens;
      var n := PublishCount(q.tokens, q.blocks, size, s.cfg.cacheBlocks);
      assert CommittedTable(s, id) == q.blocks;
      PublishContent(m, size, mem, StockOf(s), s.cfg.cacheBlocks, q.tokens, q.blocks, n);
      hide MetaOk, TableHolds, CacheHolds, MemoryShape, PublishPages, PageCount, PublishCount;
      assert forall x :: x in s.sequences ==> CommittedTable(t, x) == CommittedTable(s, x);
    }
  }

  lemma {:induction false} MakeRoomEntries(s: Stock, required: nat, cow: bool, tail: nat)
    ensures forall k :: k in MakeRoom(s, required, cow, tail).stock.cache.entries ==>
      k in s.cache.entries && MakeRoom(s, required, cow, tail).stock.cache.entries[k] == s.cache.entries[k]
    decreases |s.cache.lru|
  {
    if !(|s.pool.free| >= required + (if cow then 1 else 0) || s.cache.lru == [] || s.cache.lru[0] !in s.cache.entries) {
      var next := Evict(s);
      MakeRoomEntries(next, required, cow && !(tail < |next.pool.refs| && next.pool.refs[tail] == 1), tail);
    }
  }

  // ---- Reuse ----

  /** Each adopted page holds the matched part of the prompt, because it held the longer cached history. */
  lemma AdoptedTableHolds(m: Model, s: KvState, mem: Memory, prompt: seq<Token>)
    requires ConfigOk(s.cfg) && prompt != [] && CacheHolds(m, s.cfg.blockTokens, mem, s.cache.entries)
    ensures var found := Lookup(s.cache.entries.Keys, prompt, 0, s.cfg.blockTokens);
      && found.length < |prompt|
      && TableHolds(m, s.cfg.blockTokens, mem, FoundBlocks(s.cache, found.path), prompt[..found.length])
  {
    var size, keys := s.cfg.blockTokens, s.cache.entries.Keys;
    LookupAtLeast(keys, prompt, 0, size);
    LookupPath(keys, prompt, 0, 0, size);
    hide Lookup, PageCount, PageHolds, PageKey;
    var found := Lookup(keys, prompt, 0, size);
    var blocks := FoundBlocks(s.cache, found.path);
    forall j | 0 <= j < PageCount(found.length, size)
      ensures PageHolds(m, size, mem, blocks[j], PageKey(prompt[..found.length], j, size))
    {
      assert PageMatches(keys, prompt, found.length, 0 + j, size, found.path[j]);
      MatchedPageHolds(m, s, mem, prompt, found.length, j, found.path[j]);
    }
  }

  lemma MatchedPageHolds(m: Model, s: KvState, mem: Memory, prompt: seq<Token>, length: nat, j: nat, k: Key)
    requires ConfigOk(s.cfg) && CacheHolds(m, s.cfg.blockTokens, mem, s.cache.entries)
    requires length <= |prompt| && PageMatches(s.cache.entries.Keys, prompt, length, j, s.cfg.blockTokens, k)
    ensures PageHolds(m, s.cfg.blockTokens, mem, s.cache.entries[k], PageKey(prompt[..length], j, s.cfg.blockTokens))
  {
    var size := s.cfg.blockTokens;
    var e := PageEnd(j, length, size);
    QuotientUnique(|k| - 1, size, j);
    assert PageStart(|k|, size) == j * size;
    assert prompt[..length][..e] == prompt[..e];
    hide PageStart, PageEnd;
    assert PageHolds(m, size, mem, s.cache.entries[k], k);
    HoldsFront(m, size, mem[s.cache.entries[k]], k, e);
  }

  lemma ReusePrefixContent(m: Model, s: KvState, mem: Memory, id: RequestId, prompt: seq<Token>)
    requires ConfigOk(s.cfg) && ContentOk(m, s, mem)
    ensures ContentOk(m, ReusePrefix(s, id, prompt).state, mem)
  {
    hide Lookup, TableHolds, CacheHolds, MemoryShape, ValidTokens, Committed;
    if s.pending.None? && id in s.sequences && s.sequences[id] == EmptySequence && prompt != [] {
      AdoptContent(m, s, mem, id, prompt);
      var t := Adopt(s, id, prompt);
      assert id in t.sequences && t.pending.None?;
      hide Adopt, ContentOk;
      DropContent(m, t, mem, id);
    }
  }

  lemma AdoptContent(m: Model, s: KvState, mem: Memory, id: RequestId, prompt: seq<Token>)
    requires ConfigOk(s.cfg) && ContentOk(m, s, mem) && s.pending.None? && id in s.sequences && prompt != []
    ensures ContentOk(m, Adopt(s, id, prompt), mem)
  {
    var t := Adopt(s, id, prompt);
    AdoptedTableHolds(m, s, mem, prompt);
    var found := Lookup(s.cache.entries.Keys, prompt, 0, s.cfg.blockTokens);
    TouchAllEntries(s.cache, found.path);
    hide Lookup, TableHolds, CacheHolds, MemoryShape, FoundBlocks, RetainAll, TouchAll;
  }

  lemma {:induction false} TouchAllEntries(c: Flat, ks: seq<Key>)
    ensures TouchAll(c, ks).entries == c.entries
    decreases |ks|
  {
    if ks != [] {
      TouchAllEntries(Touch(c, ks[0]), ks[1..]);
    }
  }

  // ---- Append transactions ----

  lemma LongerTableHolds(m: Model, size: nat, mem: Memory, table: seq<nat>, more: seq<nat>, tokens: seq<Token>)
    requires size > 0 && TableHolds(m, size, mem, table, tokens)
    ensures TableHolds(m, size, mem, table + more, tokens)
  {
    hide PageCount, PageHolds, PageKey;
  }

  lemma OpenContent(m: Model, s: KvState, mem: Memory, id: RequestId, tokens: seq<Token>, required: nat, cow: bool)
    requires ConfigOk(s.cfg) && ContentOk(m, s, mem) && s.pending.None? && id in s.sequences
    requires required + (if cow then 1 else 0) <= |s.pool.free| && (cow ==> s.sequences[id].blocks != [])
    ensures ContentOk(m, Open(s, id, tokens, required, cow), mem)
  {
    var t, q := Open(s, id, tokens, required, cow), s.sequences[id];
    OpenShape(s, id, tokens, required, cow);
    if !cow {
      LongerTableHolds(m, s.cfg.blockTokens, mem, q.blocks, Taken(s.pool, required), q.tokens);
      assert t.sequences[id].blocks == q.blocks + Taken(s.pool, required);
    }
    hide Open, TableHolds, CacheHolds, MemoryShape, OriginalTable, Taken;
    assert CommittedTable(t, id) == q.blocks;
  }

  lemma EvictedContent(m: Model, s: KvState, mem: Memory, id: RequestId, count: nat)
    requires ConfigOk(s.cfg) && ContentOk(m, s, mem) && s.pending.None? && id in s.sequences
    ensures ContentOk(m, Evicted(s, id, count), mem)
  {
    var q, t := s.sequences[id], Evicted(s, id, count);
    MakeRoomEntries(StockOf(s), Required(q, count), NeedsCopy(s, q), Tail(q));
    assert t.sequences == s.sequences && t.pending == s.pending && t.cfg == s.cfg;
    assert t.cache == MakeRoom(StockOf(s), Required(q, count), NeedsCopy(s, q), Tail(q)).stock.cache;
    hide MakeRoom, TableHolds, MemoryShape, PageHolds, Evicted;
    FewerEntriesHold(m, s.cfg.blockTokens, mem, s.cache.entries, t.cache.entries);
    hide CacheHolds;
  }

  lemma PrepareAppendContent(m: Model, s: KvState, mem: Memory, id: RequestId, tokens: seq<Token>)
    requires StateOk(s) && ContentOk(m, s, mem)
    ensures ContentOk(m, PrepareAppend(s, id, tokens).state, mem)
  {
    PrepareOutcome(s, id, tokens);
    assert ConfigOk(s.cfg);
    hide MetaOk, Bounded, PrepareAppend, RoomFor, Open, PageCount, ValidTokens, Required, WithinBounds, ContentOk;
    if ValidAppend(s, id, tokens) {
      var count := PageCount(s.sequences[id].used + |tokens|, s.cfg.blockTokens);
      EvictedOk(s, id, count);
      EvictedContent(m, s, mem, id, count);
      var t, cow := Evicted(s, id, count), RoomFor(s, id, count).cow;
      if WithinBounds(s, id, count) && Required(s.sequences[id], count) + (if cow then 1 else 0) <= |t.pool.free| {
        OpenContent(m, t, mem, id, tokens, Required(s.sequences[id], count), cow);
      }
    }
  }

  lemma RollbackContent(m: Model, s: KvState, mem: Memory)
    requires MetaOk(s) && ContentOk(m, s, mem) && s.pending.Some?
    ensures s.pending.value.id in s.sequences && s.pending.value.original <= |s.sequences[s.pending.value.id].blocks|
    ensures ContentOk(m, Rollback(s), mem)
  {
    PendingShape(s);
    hide MetaOk, TableHolds, CacheHolds, MemoryShape, OriginalTable, UnrefAll, Unref;
  }

  /** Committing is safe once every new position has been written. */
  lemma CommitContent(m: Model, s: KvState, mem: Memory)
    requires MetaOk(s) && ContentOk(m, s, mem) && s.pending.Some? && s.pending.value.id in s.sequences
    requires var p := s.pending.value;
      TableHolds(m, s.cfg.blockTokens, mem, s.sequences[p.id].blocks, s.sequences[p.id].tokens + p.tokens)
    ensures ContentOk(m, Commit(s).state, mem)
  {
    hide MetaOk, TableHolds, CacheHolds, MemoryShape, OriginalTable, Unref;
  }
}
