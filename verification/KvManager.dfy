/** KVManager (miniprefix/src/kv/kv_manager.cpp): sequences, reservations and the open append over one page pool and one
    prefix cache. Every method is proved equal to its step of the metadata state machine and keeps its invariant. */
module KvManager {
  import opened Prelude
  import opened PageKeys
  import opened KvPool
  import opened FlatCache
  import opened PrefixMatch
  import opened PrefixTrie
  import opened KvSpec
  import opened KvInvariant
  import opened KvOperations
  import opened KvAppend

  lemma StockOfOk(s: KvState)
    requires StateOk(s)
    ensures StockOk(StockOf(s), s.cfg.cacheBlocks, Owned(s))
  {
    assert Held(s) == Owned(s) + Leased(s.cache.entries);
    hide Held, Owned, Leased, Counts;
  }

  lemma InitialOk(cfg: Config, p: Pool)
    requires ConfigOk(cfg) && |p.refs| == cfg.maxBlocks && Counts(p, multiset{})
    ensures StateOk(KvState(cfg, p, Flat(map[], []), map[], map[], None))
  {
    var s := KvState(cfg, p, Flat(map[], []), map[], map[], None);
    assert Tables(s.sequences) == map[];
    assert LeaseTable(s.cache.entries) == map[];
    assert Held(s) == multiset{};
  }

  /** `all` is the disjoint union of `a` and `b`. */
  ghost predicate Splits<K(!new)>(all: map<K, nat>, a: map<K, nat>, b: map<K, nat>) {
    && (forall k :: k in all <==> k in a || k in b)
    && (forall k :: k in a ==> k !in b && all[k] == a[k])
    && (forall k :: k in b ==> all[k] == b[k])
  }

  lemma SplitsRemove<K(!new)>(all: map<K, nat>, a: map<K, nat>, b: map<K, nat>, k: K)
    requires Splits(all, a, b) && k in b
    ensures Splits(all - {k}, a, b - {k}) && |b - {k}| < |b|
  {
    assert (b - {k}).Keys == b.Keys - {k};
  }

  lemma {:induction false} TotalSplits<K(!new)>(all: map<K, nat>, a: map<K, nat>, b: map<K, nat>)
    requires Splits(all, a, b)
    ensures Total(all) == Total(a) + Total(b)
    decreases |b|
  {
    if b == map[] {
      assert all == a;
    } else {
      hide Total;
      var k :| k in b;
      TotalRemove(all, k);
      TotalRemove(b, k);
      SplitsRemove(all, a, b, k);
      hide Splits;
      TotalSplits(all - {k}, a, b - {k});
    }
  }

  method AddPromises(promises: map<RequestId, nat>, start: nat) returns (sum: nat)
    ensures sum == start + Total(promises)
  {
    sum := start;
    var rest := promises;
    while rest.Keys != {}
      invariant sum + Total(rest) == start + Total(promises)
      decreases |rest|
    {
      var id :| id in rest.Keys;
      hide Total;
      TotalRemove(rest, id);
      assert (rest - {id}).Keys == rest.Keys - {id};
      sum, rest := sum + rest[id], rest - {id};
    }
  }

  /** All reservations, and the tables of the unreserved sequences. */
  method CommittedBlocks(sequences: map<RequestId, PagedSequence>, reservations: map<RequestId, nat>) returns (count: nat)
    ensures count == Total(Commitments(sequences, reservations))
  {
    hide Total;
    count := AddPromises(reservations, 0);
    var tables := map id | id in sequences && id !in reservations :: |sequences[id].blocks|;
    count := AddPromises(tables, count);
    TotalSplits(Commitments(sequences, reservations), reservations, tables);
  }

  method TokensValid(tokens: seq<Token>, vocabulary: nat) returns (ok: bool)
    ensures ok == ValidTokens(tokens, vocabulary)
  {
    for i := 0 to |tokens|
      invariant ValidTokens(tokens[..i], vocabulary)
    {
      if !(0 <= tokens[i] < vocabulary) {
        return false;
      }
      assert tokens[..i + 1] == tokens[..i] + [tokens[i]];
    }
    assert tokens[..|tokens|] == tokens;
    return true;
  }

  class KVManager {
    const cfg: Config
    const pool: KvBlockPool
    const prefix: ExactPrefixCache
    var sequences: map<RequestId, PagedSequence>
    var reservations: map<RequestId, nat>
    var pending: Option<Pending>

    /** The whole metadata state. */
    ghost function State(): KvState
      reads this, pool, prefix
    {
      KvState(cfg, pool.View(), prefix.View(), sequences, reservations, pending)
    }

    ghost predicate Wired()
      reads this, pool, prefix
    {
      ConfigOk(cfg) && prefix.pool == pool && prefix.size == cfg.blockTokens && prefix.capacity == cfg.cacheBlocks && prefix.Valid()
    }

    ghost predicate Valid()
      reads this, pool, prefix
    {
      Wired() && StateOk(State())
    }

    constructor (cfg: Config)
      requires ConfigOk(cfg)
      ensures Valid() && fresh(pool) && fresh(prefix) && this.cfg == cfg
      ensures sequences == map[] && reservations == map[] && pending == None && prefix.View() == Flat(map[], [])
    {
      this.cfg := cfg;
      var p := new KvBlockPool(cfg.maxBlocks);
      var c := new ExactPrefixCache(p, cfg.blockTokens, cfg.cacheBlocks);
      pool, prefix := p, c;
      sequences, reservations, pending := map[], map[], None;
      new;
      InitialOk(cfg, pool.View());
      hide StateOk;
    }

    method ReserveRequest(id: RequestId, maxTokens: nat) returns (r: Reply<Admission>)
      requires Valid()
      modifies this
      ensures Valid() && Outcome(State(), r) == KvSpec.ReserveRequest(old(State()), id, maxTokens)
    {
      hide StateOk, Commitments, ExactPrefixCache.Valid, ExactPrefixCache.View;
      ReserveRequestOk(State(), id, maxTokens);
      if pending.Some? {
        return Thrown(Logic);
      }
      if id in sequences || id in reservations || maxTokens == 0 || maxTokens > cfg.context {
        return Thrown(Invalid);
      }
      var pages := 1 + (maxTokens - 1) / cfg.blockTokens;
      if pages > cfg.maxBlocks {
        return Value(Impossible);
      }
      var committed := CommittedBlocks(sequences, reservations);
      if committed > cfg.maxBlocks || pages > cfg.maxBlocks - committed {
        return Value(Wait);
      }
      reservations := reservations[id := pages];
      return Value(Ready);
    }

    method ReleaseReservation(id: RequestId)
      requires Valid()
      modifies this
      ensures Valid() && State() == KvSpec.ReleaseReservation(old(State()), id)
    {
      hide StateOk, ExactPrefixCache.Valid, ExactPrefixCache.View;
      ReleaseReservationOk(State(), id);
      reservations := reservations - {id};
    }

    method Create(id: RequestId) returns (r: Reply<()>)
      requires Valid()
      modifies this
      ensures Valid() && Outcome(State(), r) == KvSpec.Create(old(State()), id)
    {
      hide StateOk, ExactPrefixCache.Valid, ExactPrefixCache.View;
      CreateOk(State(), id);
      if pending.Some? {
        return Thrown(Logic);
      }
      if id in sequences {
        return Thrown(Invalid);
      }
      sequences := sequences[id := EmptySequence];
      return Value(());
    }

    method ForkSequence(source: RequestId, target: RequestId) returns (r: Reply<()>)
      requires Valid()
      modifies this, pool
      ensures Valid() && Outcome(State(), r) == Fork(old(State()), source, target)
    {
      hide StateOk, Commitments, ExactPrefixCache.Valid, ExactPrefixCache.View, RetainAll;
      ForkOk(State(), source, target);
      if pending.Some? {
        return Thrown(Logic);
      }
      if source !in sequences || target !in sequences {
        return Thrown(Missing);
      }
      var original, destination := sequences[source], sequences[target];
      if source == target || destination.used != 0 || destination.blocks != [] || destination.tokens != [] {
        return Thrown(Invalid);
      }
      if target in reservations {
        if |original.blocks| > reservations[target] {
          return Thrown(Capacity);
        }
      } else {
        var used := CommittedBlocks(sequences, reservations);
        if used > cfg.maxBlocks || |original.blocks| > cfg.maxBlocks - used {
          return Thrown(Capacity);
        }
      }
      TableInPool(State(), source);
      RetainTable(pool, original.blocks);
      sequences := sequences[target := original];
      return Value(());
    }

    method CachePrefix(id: RequestId) returns (r: Reply<()>)
      requires Valid()
      modifies pool, prefix
      ensures Valid() && Outcome(State(), r) == KvSpec.CachePrefix(old(State()), id)
    {
      hide StateOk, FlatCache.Publish, StockOk, ExactPrefixCache.Valid, ExactPrefixCache.View, Owned, PathAt, PublishCount;
      CachePrefixOk(State(), id);
      StockOfOk(State());
      if pending.Some? {
        return Thrown(Logic);
      }
      if id !in sequences {
        return Thrown(Missing);
      }
      if |sequences[id].tokens| != sequences[id].used {
        return Thrown(Logic);
      }
      TableHeld(State(), id);
      prefix.Publish(sequences[id].tokens, sequences[id].blocks, Owned(State()));
      return Value(());
    }

    /** Gives back the pages of a sequence and empties it. */
    method DropTable(id: RequestId)
      requires Wired() && id in sequences && Covers(pool.references, sequences[id].blocks)
      modifies this, pool
      ensures Wired() && State() == Drop(old(State()), id)
    {
      hide UnrefAll, ExactPrefixCache.Valid, ExactPrefixCache.View;
      assert sequences[id].blocks[0..] == sequences[id].blocks;
      pool.Rollback(sequences[id].blocks, 0);
      sequences := sequences[id := EmptySequence];
    }

    method ReusePrefix(id: RequestId, prompt: seq<Token>) returns (r: Reply<nat>)
      requires Valid()
      modifies this, pool, prefix
      ensures Valid() && Outcome(State(), r) == KvSpec.ReusePrefix(old(State()), id, prompt)
    {
      ghost var s := State();
      hide StateOk, Commitments, Adopt, Drop, ExactPrefixCache.Valid, ExactPrefixCache.View, Covers, ValidTokens;
      ReusePrefixOk(s, id, prompt);
      var ok := TokensValid(prompt, cfg.vocabulary);
      if prompt == [] || |prompt| > cfg.context || !ok {
        return Thrown(Invalid);
      }
      if pending.Some? {
        return Thrown(Logic);
      }
      if id !in sequences {
        return Thrown(Missing);
      }
      if sequences[id].used != 0 || sequences[id].blocks != [] || sequences[id].tokens != [] {
        return Thrown(Invalid);
      }
      AdoptPrefix(id, prompt);
      if id in reservations && |sequences[id].blocks| > reservations[id] {
        DropTable(id);
        return Thrown(Capacity);
      }
      if reservations.Keys != {} {
        var committed := CommittedBlocks(sequences, reservations);
        if committed > cfg.maxBlocks {
          DropTable(id);
          return Thrown(Capacity);
        }
      }
      return Value(sequences[id].used);
    }

    method AdoptPrefix(id: RequestId, prompt: seq<Token>)
      requires Valid() && pending.None? && id in sequences && sequences[id] == EmptySequence && prompt != [] && |prompt| <= cfg.context
      modifies this, pool, prefix
      ensures Wired() && State() == Adopt(old(State()), id, prompt) && id in sequences
      ensures Covers(pool.references, sequences[id].blocks)
    {
      ghost var s := State();
      hide StateOk, MetaOk, StockOk, ExactPrefixCache.Valid, ExactPrefixCache.View, Lookup, RetainAll, TouchAll, FoundBlocks, Owned, Covers;
      StockOfOk(s);
      AdoptedOk(s, id, prompt);
      LookupAtLeast(s.cache.entries.Keys, prompt, 0, s.cfg.blockTokens);
      var blocks, length := prefix.Reuse(prompt, Owned(s));
      if cfg.cacheBlocks != 0 {
        sequences := sequences[id := PagedSequence(length, blocks, prompt[..length])];
      }
    }

    method ResetSequence(id: RequestId) returns (r: Reply<()>)
      requires Valid()
      modifies this, pool
      ensures Valid() && Outcome(State(), r) == Reset(old(State()), id)
    {
      hide StateOk, Drop, ExactPrefixCache.Valid, ExactPrefixCache.View, Covers;
      ResetOk(State(), id);
      if pending.Some? {
        return Thrown(Logic);
      }
      if id !in sequences {
        return Thrown(Missing);
      }
      TableCovered(State(), id);
      DropTable(id);
      return Value(());
    }

    method ReleaseSequence(id: RequestId) returns (r: Reply<()>)
      requires Valid()
      modifies this, pool
      ensures Valid() && Outcome(State(), r) == Release(old(State()), id)
    {
      hide StateOk, UnrefAll, ExactPrefixCache.Valid, ExactPrefixCache.View, Covers;
      ReleaseOk(State(), id);
      if pending.Some? {
        return Thrown(Logic);
      }
      if id !in sequences {
        return Thrown(Invalid);
      }
      TableCovered(State(), id);
      assert sequences[id].blocks[0..] == sequences[id].blocks;
      pool.Rollback(sequences[id].blocks, 0);
      sequences, reservations := sequences - {id}, reservations - {id};
      return Value(());
    }

    // ---- Append transactions ----

    /** Evicts until the pages fit; an eviction that leaves the tail unshared cancels its copy. */
    method EvictUntil(required: nat, shared: bool, tail: nat, ghost others: multiset<nat>) returns (cow: bool)
      requires Wired() && StockOk(StockOf(State()), cfg.cacheBlocks, others) && (shared ==> tail < |pool.references|)
      modifies pool, prefix
      ensures Wired() && Room(StockOf(State()), cow) == MakeRoom(old(StockOf(State())), required, shared, tail)
      ensures StockOk(StockOf(State()), cfg.cacheBlocks, others)
    {
      hide StockOk, Evict, ExactPrefixCache.Valid, ExactPrefixCache.View;
      cow := shared;
      while |pool.free| < required + (if cow then 1 else 0)
        invariant Wired() && StockOk(StockOf(State()), cfg.cacheBlocks, others) && (cow ==> tail < |pool.references|)
        invariant MakeRoom(StockOf(State()), required, cow, tail) == MakeRoom(old(StockOf(State())), required, shared, tail)
        decreases |prefix.View().lru|
      {
        EvictStep(StockOf(State()), cfg.cacheBlocks, others);
        var evicted := prefix.EvictOne(others);
        if !evicted {
          break;
        }
        if cow && pool.references[tail] == 1 {
          cow := false;
        }
      }
    }

    method PrepareAppend(id: RequestId, tokens: seq<Token>) returns (r: Reply<()>)
      requires Valid()
      modifies this, pool, prefix
      ensures Valid() && Outcome(State(), r) == KvSpec.PrepareAppend(old(State()), id, tokens)
    {
      ghost var s := State();
      hide StateOk, Commitments, MakeRoom, Open, ExactPrefixCache.Valid, ExactPrefixCache.View, ValidTokens, WithinBounds, StockOk, PageCount;
      PrepareAppendOk(s, id, tokens);
      if pending.Some? {
        return Thrown(Logic);
      }
      if id !in sequences {
        return Thrown(Missing);
      }
      var ok := TokensValid(tokens, cfg.vocabulary);
      var q := sequences[id];
      if tokens == [] || q.used + |tokens| > cfg.context || !ok {
        return Thrown(Invalid);
      }
      var count := PageCount(q.used + |tokens|, cfg.blockTokens);
      var within := CheckBounds(id, count);
      if !within {
        return Thrown(Capacity);
      }
      PrepareReady(s, id);
      var shared := q.used % cfg.blockTokens != 0 && pool.references[Tail(q)] > 1;
      var required := Required(q, count);
      var cow := EvictUntil(required, shared, Tail(q), Owned(s));
      if required + (if cow then 1 else 0) > |pool.free| {
        return Thrown(Capacity);
      }
      OpenReady(s, StockOf(State()), id, count, cow);
      OpenAppend(id, tokens, required, cow);
      return Value(());
    }

    method CheckBounds(id: RequestId, count: nat) returns (within: bool)
      requires id in sequences
      ensures within == WithinBounds(State(), id, count)
    {
      hide Commitments, ExactPrefixCache.View;
      if reservations.Keys == {} {
        return true;
      }
      if id in reservations {
        return count <= reservations[id];
      }
      var committed := CommittedBlocks(sequences, reservations);
      var required := if count > |sequences[id].blocks| then count - |sequences[id].blocks| else 0;
      return committed <= cfg.maxBlocks && required <= cfg.maxBlocks - committed;
    }

    /** Takes the new pages, then the replacement of a shared tail, and opens the transaction. */
    method OpenAppend(id: RequestId, tokens: seq<Token>, required: nat, cow: bool)
      requires Wired() && id in sequences && required + (if cow then 1 else 0) <= |pool.free| && Within(pool.free, |pool.references|)
      requires cow ==> sequences[id].blocks != []
      modifies this, pool
      ensures Wired() && State() == Open(old(State()), id, tokens, required, cow)
    {
      hide ExactPrefixCache.Valid, ExactPrefixCache.View, AllocateMany, Taken, Allocate;
      ghost var p := pool.View();
      var q := sequences[id];
      var original := |q.blocks|;
      ReserveNothing(p, required);
      AllocateManyFree(p, required);
      WithinFront(p, required, |pool.references|);
      var ok, table := pool.Reserve(q.blocks, original + required);
      assert table == q.blocks + Taken(p, required);
      assert table[original..] == Taken(p, required);
      var copy := None;
      if cow {
        var replacement := pool.AllocatePage();
        copy := Some(TailCopy(table[original - 1], replacement.value, q.used % cfg.blockTokens));
        TableReplaced(q.blocks, table, original, replacement.value);
        table := table[original - 1 := replacement.value];
      }
      sequences := sequences[id := q.(blocks := table)];
      pending := Some(Pending(id, tokens, original, copy, false));
    }

    /** The payload of a shared tail has been copied. */
    method TailCopied()
      requires Valid() && pending.Some?
      modifies this
      ensures Valid() && State() == MarkCopied(old(State()))
    {
      hide StateOk, ExactPrefixCache.Valid, ExactPrefixCache.View;
      MarkCopiedOk(State());
      var p := pending.value;
      pending := Some(p.(copied := p.copied || p.copy.Some?));
    }

    method CommitAppend() returns (r: Reply<()>)
      requires Valid() && pending.Some?
      modifies this, pool
      ensures old(pending.value.id in sequences)
      ensures Valid() && Outcome(State(), r) == Commit(old(State()))
    {
      hide StateOk, ExactPrefixCache.Valid, ExactPrefixCache.View, Unref;
      CommitOk(State());
      SourceHeld(State());
      var p := pending.value;
      if p.copy.Some? && !p.copied {
        return Thrown(Logic);
      }
      var q := sequences[p.id];
      sequences := sequences[p.id := q.(used := q.used + |p.tokens|, tokens := q.tokens + p.tokens)];
      if p.copy.Some? {
        pool.UnrefPage(p.copy.value.source);
      }
      pending := None;
      return Value(());
    }

    method RollbackAppend()
      requires Valid() && pending.Some?
      modifies this, pool
      ensures old(pending.value.id in sequences && pending.value.original <= |sequences[pending.value.id].blocks|)
      ensures Valid() && State() == KvSpec.Rollback(old(State()))
    {
      hide StateOk, ExactPrefixCache.Valid, ExactPrefixCache.View, Unref, UnrefAll, Covers;
      RollbackOk(State());
      TakenHeld(State());
      var p := pending.value;
      var table := sequences[p.id].blocks;
      pool.Rollback(table, p.original);
      table := table[..p.original];
      if p.copy.Some? {
        table := table[p.original - 1 := p.copy.value.source];
        pool.UnrefPage(p.copy.value.destination);
      }
      sequences := sequences[p.id := sequences[p.id].(blocks := table)];
      pending := None;
    }

    // ---- Clearing ----

    method ClearPrefixCache() returns (r: Reply<()>)
      requires Valid()
      modifies pool, prefix
      ensures Valid()
      ensures pending.Some? ==> State() == old(State()) && r == Thrown(Logic)
      ensures pending.None? ==> r == Value(()) && prefix.View() == Flat(map[], [])
    {
      hide StateOk, StockOk, ExactPrefixCache.Valid, ExactPrefixCache.View;
      if pending.Some? {
        return Thrown(Logic);
      }
      ghost var s := State();
      StockOfOk(s);
      prefix.Clear(Owned(s));
      StockChangedOk(s, StockOf(State()));
      return Value(());
    }

    /** Gives back every page: all sequences, then the cache, then the reservations. */
    method Clear() returns (r: Reply<()>)
      requires Valid()
      modifies this, pool, prefix
      ensures Valid()
      ensures old(pending).Some? ==> State() == old(State()) && r == Thrown(Logic)
      ensures old(pending).None? ==> r == Value(()) && Cleared(old(State()), State())
    {
      hide StateOk, StockOk, ExactPrefixCache.Valid, ExactPrefixCache.View, Release, Cleared;
      if pending.Some? {
        return Thrown(Logic);
      }
      ghost var s := State();
      while sequences.Keys != {}
        invariant Valid() && pending.None?
        invariant State().cfg == s.cfg && |pool.references| == |s.pool.refs|
        decreases |sequences|
      {
        var id :| id in sequences.Keys;
        ReleaseShrinks(State(), id);
        var released := ReleaseSequence(id);
      }
      StockOfOk(State());
      ghost var t := State();
      prefix.Clear(Owned(t));
      AllReturned(s, t, StockOf(State()));
      sequences, reservations := map[], map[];
      return Value(());
    }
  }

  lemma TableHeld(s: KvState, id: RequestId)
    requires id in s.sequences
    ensures forall j :: 0 <= j < |s.sequences[id].blocks| ==> s.sequences[id].blocks[j] in Owned(s)
  {
    hide Bag, Owned, Held;
    TableOwned(s, id);
    var table := s.sequences[id].blocks;
    forall j | 0 <= j < |table| ensures table[j] in Owned(s) {
      assert table[j] in multiset(table);
    }
  }

  lemma TableCovered(s: KvState, id: RequestId)
    requires StateOk(s) && id in s.sequences
    ensures Covers(s.pool.refs, s.sequences[id].blocks)
  {
    TableOwned(s, id);
    hide Held, Owned, Counts;
    CoversHeld(s.pool, Held(s), s.sequences[id].blocks);
  }

  lemma AdoptedOk(s: KvState, id: RequestId, prompt: seq<Token>)
    requires StateOk(s) && s.pending.None? && id in s.sequences && s.sequences[id] == EmptySequence && prompt != [] && |prompt| <= s.cfg.context
    ensures var t := Adopt(s, id, prompt); id in t.sequences && Covers(t.pool.refs, t.sequences[id].blocks)
  {
    AdoptOk(s, id, prompt);
    var t := Adopt(s, id, prompt);
    hide StateOk, Adopt;
    TableOwned(t, id);
    hide Held, Owned, Counts;
    CoversHeld(t.pool, Held(t), t.sequences[id].blocks);
  }

  lemma TableInPool(s: KvState, id: RequestId)
    requires StateOk(s) && id in s.sequences
    ensures Within(s.sequences[id].blocks, |s.pool.refs|)
  {
    TableCovered(s, id);
    hide MetaOk;
  }

  lemma EvictStep(s: Stock, capacity: nat, others: multiset<nat>)
    requires StockOk(s, capacity, others)
    ensures s.cache.lru != [] ==>
      && s.cache.lru[0] in s.cache.entries && StockOk(Evict(s), capacity, others)
      && |Evict(s).cache.lru| < |s.cache.lru| && |Evict(s).pool.refs| == |s.pool.refs|
    ensures s.cache.lru == [] ==> Evict(s) == s
  {
    if s.cache.lru != [] {
      EvictOk(s, capacity, others);
    }
  }

  /** An idle sequence's tail page and the counts around it. */
  lemma PrepareReady(s: KvState, id: RequestId)
    requires StateOk(s) && s.pending.None? && id in s.sequences
    ensures Tail(s.sequences[id]) < |s.pool.refs|
    ensures StockOk(StockOf(s), s.cfg.cacheBlocks, Owned(s))
  {
    TailFacts(s, id);
  }

  lemma OpenReady(s: KvState, stock: Stock, id: RequestId, count: nat, cow: bool)
    requires StateOk(s) && s.pending.None? && id in s.sequences
    requires Room(stock, cow) == MakeRoom(StockOf(s), Required(s.sequences[id], count), NeedsCopy(s, s.sequences[id]), Tail(s.sequences[id]))
    requires StockOk(stock, s.cfg.cacheBlocks, Owned(s))
    ensures Within(stock.pool.free, |stock.pool.refs|) && (cow ==> s.sequences[id].blocks != [])
  {
    EvictedOk(s, id, count);
    hide StateOk;
  }

  lemma ReserveNothing(p: Pool, required: nat)
    requires required <= |p.free|
    ensures required == 0 ==> AllocateMany(p, required) == p && Taken(p, required) == []
  {
  }

  lemma WithinFront(p: Pool, required: nat, n: nat)
    requires required <= |p.free| && Within(p.free, n) && n == |p.refs|
    ensures AllocateMany(p, required).free == p.free[..|p.free| - required] && Within(p.free[..|p.free| - required], n)
  {
    AllocateManyFree(p, required);
  }

  lemma TableReplaced(blocks: seq<nat>, table: seq<nat>, original: nat, page: nat)
    requires 0 < original == |blocks| <= |table| && table[..original] == blocks
    ensures table[original - 1] == blocks[original - 1]
    ensures table[original - 1 := page] == blocks[original - 1 := page] + table[original..]
  {
    assert table == blocks + table[original..];
  }

  lemma MarkCopiedOk(s: KvState)
    requires StateOk(s) && s.pending.Some?
    ensures StateOk(MarkCopied(s))
  {
    hide Held, Counts, CacheOk, Committed, SoleHolder, FirstWritable, SequenceOk, PageCount;
    var t := MarkCopied(s);
    HeldMarked(s);
    CommittedSame(s, t);
  }

  lemma HeldMarked(s: KvState)
    requires s.pending.Some?
    ensures Held(MarkCopied(s)) == Held(s)
  {
    hide Bag, Leased;
  }

  lemma CommittedSame(s: KvState, t: KvState)
    requires s.sequences == t.sequences && s.reservations == t.reservations
    ensures Committed(s) == Committed(t)
  {
  }

  lemma SourceHeld(s: KvState)
    requires StateOk(s) && s.pending.Some?
    ensures s.pending.value.copy.Some? ==>
      var b := s.pending.value.copy.value.source; b < |s.pool.refs| && s.pool.refs[b] > 0
  {
    if s.pending.value.copy.Some? {
      var b := s.pending.value.copy.value.source;
      assert b in PendingSource(s.pending);
      assert b in Held(s);
    }
  }

  /** The pages a rollback gives back are all leased. */
  lemma TakenHeld(s: KvState)
    requires StateOk(s) && s.pending.Some?
    ensures var p := s.pending.value;
      && p.id in s.sequences && p.original <= |s.sequences[p.id].blocks|
      && var table := s.sequences[p.id].blocks;
      && Covers(s.pool.refs, table[p.original..])
      && (p.copy.Some? ==>
            && p.original > 0 && p.copy.value.destination < |s.pool.refs|
            && UnrefAll(s.pool, table[p.original..]).refs[p.copy.value.destination] > 0)
  {
    PendingShape(s);
    HeldRolledBack(s);
    var p := s.pending.value;
    var tail := s.sequences[p.id].blocks[p.original..];
    hide Held, PendingOk, Counts, UnrefAll;
    UnrefAllCounts(s.pool, Held(s), tail);
    if p.copy.Some? {
      LeftHeld(UnrefAll(s.pool, tail), Held(s), multiset(tail), p.copy.value.destination);
    }
  }

  lemma LeftHeld(p: Pool, held: multiset<nat>, taken: multiset<nat>, b: nat)
    requires Counts(p, held - taken) && taken + multiset{b} <= held
    ensures b < |p.refs| && p.refs[b] > 0
  {
    assert b in held - taken;
  }

  lemma StockChangedOk(s: KvState, stock: Stock)
    requires StateOk(s) && s.pending.None? && StockOk(stock, s.cfg.cacheBlocks, Owned(s)) && |stock.pool.refs| == |s.pool.refs|
    ensures StateOk(s.(pool := stock.pool, cache := stock.cache))
  {
    StockChanged(s, stock);
    CommittedSame(s, s.(pool := stock.pool, cache := stock.cache));
    hide MetaOk, Committed;
  }

  lemma ReleaseShrinks(s: KvState, id: RequestId)
    requires s.pending.None? && id in s.sequences
    ensures var t := Release(s, id).state;
      t.pending.None? && t.cfg == s.cfg && |t.sequences| < |s.sequences| && |t.pool.refs| == |s.pool.refs|
  {
    assert (s.sequences - {id}).Keys == s.sequences.Keys - {id};
  }

  /** Without sequences, leases or an open append no page is held. */
  lemma AllReturned(s: KvState, t: KvState, stock: Stock)
    requires StateOk(s) && t.cfg == s.cfg && t.sequences.Keys == {} && t.pending.None? && |stock.pool.refs| == |s.pool.refs|
    requires stock.cache == Flat(map[], []) && StockOk(stock, t.cfg.cacheBlocks, Owned(t))
    ensures var u := KvState(s.cfg, stock.pool, stock.cache, map[], map[], None); Cleared(s, u) && StateOk(u)
  {
    assert Tables(t.sequences) == map[];
    assert LeaseTable(stock.cache.entries) == map[];
    assert Owned(t) == multiset{};
    ClearedOk(s, KvState(s.cfg, stock.pool, stock.cache, map[], map[], None));
  }
}
