/** Reference conservation and page bounds, kept by every operation of the KV manager. */
module KvInvariant {
  import opened Prelude
  import opened PageKeys
  import opened KvPool
  import opened FlatCache
  import opened KvSpec

  ghost predicate SequenceOk(cfg: Config, q: PagedSequence)
    requires ConfigOk(cfg)
  {
    q.used == |q.tokens| <= cfg.context && |q.blocks| == PageCount(q.used, cfg.blockTokens)
  }

  /** First page of the table that the open transaction may write. */
  function FirstWritable(used: nat, original: nat, size: nat): int
    requires size > 0
  {
    if used % size == 0 then original else original - 1
  }

  ghost predicate SoleHolder(held: multiset<nat>, blocks: seq<nat>, from: int) {
    forall j :: 0 <= j < |blocks| && from <= j ==> held[blocks[j]] == 1
  }

  ghost predicate PendingOk(s: KvState, p: Pending)
    requires ConfigOk(s.cfg)
  {
    && p.id in s.sequences
    && var q, size := s.sequences[p.id], s.cfg.blockTokens;
    && p.tokens != [] && q.used == |q.tokens| && q.used + |p.tokens| <= s.cfg.context
    && p.original == PageCount(q.used, size) <= |q.blocks| == PageCount(q.used + |p.tokens|, size)
    && (p.copy.Some? ==>
          && q.used % size != 0 && p.original > 0
          && p.copy.value.destination == q.blocks[p.original - 1]
          && p.copy.value.validTokens == q.used % size)
    && SoleHolder(Held(s), q.blocks, FirstWritable(q.used, p.original, size))
  }

  /** Every page count equals the number of its holders, the free list holds exactly the unheld pages once each,
      and every table has exactly the pages its tokens need. */
  ghost predicate MetaOk(s: KvState) {
    && ConfigOk(s.cfg) && |s.pool.refs| == s.cfg.maxBlocks
    && CacheOk(s.cache, s.cfg.cacheBlocks)
    && Counts(s.pool, Held(s))
    && (forall id :: id in s.sequences && !(s.pending.Some? && s.pending.value.id == id) ==> SequenceOk(s.cfg, s.sequences[id]))
    && (s.pending.Some? ==> PendingOk(s, s.pending.value))
  }

  /** No reserved request holds more pages than it reserved, and while anything is reserved the promises fit the pool. */
  ghost predicate Bounded(s: KvState) {
    && (forall id :: id in s.sequences && id in s.reservations ==> |s.sequences[id].blocks| <= s.reservations[id])
    && (s.reservations.Keys != {} ==> Committed(s) <= s.cfg.maxBlocks)
  }

  ghost predicate StateOk(s: KvState) {
    MetaOk(s) && Bounded(s)
  }

  // ---- How holders and promises change ----

  lemma TablesUpdate(m: map<RequestId, PagedSequence>, id: RequestId, q: PagedSequence)
    ensures Tables(m[id := q]) == Tables(m)[id := q.blocks]
    ensures Tables(m - {id}) == Tables(m) - {id}
    ensures id in m <==> id in Tables(m)
    ensures id in m ==> Tables(m)[id] == m[id].blocks
  {
  }

  /** Pages held outside the cache. */
  ghost function Owned(s: KvState): multiset<nat> {
    Bag(Tables(s.sequences)) + PendingSource(s.pending)
  }

  lemma TableOwned(s: KvState, id: RequestId)
    requires id in s.sequences
    ensures multiset(s.sequences[id].blocks) <= Bag(Tables(s.sequences)) <= Owned(s) <= Held(s)
  {
    TablesUpdate(s.sequences, id, s.sequences[id]);
    BagRemove(Tables(s.sequences), id);
  }

  lemma OwnedSetTable(s: KvState, id: RequestId, q: PagedSequence)
    requires id in s.sequences
    ensures Bag(Tables(s.sequences[id := q])) + multiset(s.sequences[id].blocks) == Bag(Tables(s.sequences)) + multiset(q.blocks)
  {
    TablesUpdate(s.sequences, id, q);
    BagUpdate(Tables(s.sequences), id, q.blocks);
  }

  lemma BagNewTable(m: map<RequestId, PagedSequence>, id: RequestId, q: PagedSequence)
    requires id !in m
    ensures Bag(Tables(m[id := q])) == Bag(Tables(m)) + multiset(q.blocks)
  {
    TablesUpdate(m, id, q);
    BagUpdate(Tables(m), id, q.blocks);
  }

  lemma BagDropTable(m: map<RequestId, PagedSequence>, id: RequestId)
    requires id in m
    ensures Bag(Tables(m)) == Bag(Tables(m - {id})) + multiset(m[id].blocks)
  {
    TablesUpdate(m, id, m[id]);
    BagRemove(Tables(m), id);
  }

  lemma CommitmentsSetTable(m: map<RequestId, PagedSequence>, r: map<RequestId, nat>, id: RequestId, q: PagedSequence)
    ensures id in r ==> Commitments(m[id := q], r) == Commitments(m, r)
    ensures id !in r ==> Commitments(m[id := q], r) == Commitments(m, r)[id := |q.blocks|]
  {
  }

  lemma CommittedSetTable(m: map<RequestId, PagedSequence>, r: map<RequestId, nat>, id: RequestId, q: PagedSequence)
    requires id in m
    ensures Total(Commitments(m[id := q], r)) ==
      Total(Commitments(m, r)) + (if id in r then 0 else |q.blocks| - |m[id].blocks|)
  {
    CommitmentsSetTable(m, r, id, q);
    TotalUpdate(Commitments(m, r), id, |q.blocks|);
  }

  lemma CommittedNewTable(m: map<RequestId, PagedSequence>, r: map<RequestId, nat>, id: RequestId)
    requires id !in m
    ensures Total(Commitments(m[id := EmptySequence], r)) == Total(Commitments(m, r))
  {
    CommitmentsSetTable(m, r, id, EmptySequence);
    TotalUpdate(Commitments(m, r), id, 0);
  }

  lemma CommittedReserve(m: map<RequestId, PagedSequence>, r: map<RequestId, nat>, id: RequestId, pages: nat)
    requires id !in m && id !in r
    ensures Total(Commitments(m, r[id := pages])) == Total(Commitments(m, r)) + pages
  {
    assert Commitments(m, r[id := pages]) == Commitments(m, r)[id := pages];
    TotalUpdate(Commitments(m, r), id, pages);
  }

  /** Giving up a reservation, or a sequence with it, never raises the promises. */
  lemma CommittedFewer(m: map<RequestId, PagedSequence>, r: map<RequestId, nat>, n: map<RequestId, PagedSequence>, id: RequestId)
    requires n == m || n == m - {id}
    requires id in m && id in r ==> |m[id].blocks| <= r[id]
    ensures Total(Commitments(n, r - {id})) <= Total(Commitments(m, r))
  {
    TotalMonotone(Commitments(n, r - {id}), Commitments(m, r));
  }
}
