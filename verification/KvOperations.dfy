/** Every manager operation keeps the accounting invariant. */
module KvOperations {
  import opened Prelude
  import opened PageKeys
  import opened KvPool
  import opened FlatCache
  import opened PrefixMatch
  import opened KvSpec
  import opened KvInvariant

  // ---- Admission and bookkeeping ----

  lemma HeldIgnoresReservations(s: KvState, r: map<RequestId, nat>)
    ensures Held(s.(reservations := r)) == Held(s)
  {
  }

  lemma MetaIgnoresReservations(s: KvState, r: map<RequestId, nat>)
    requires MetaOk(s)
    ensures MetaOk(s.(reservations := r))
  {
    HeldIgnoresReservations(s, r);
    hide Counts, Held, CacheOk, PageCount, SequenceOk, SoleHolder;
  }

  lemma ReserveRequestOk(s: KvState, id: RequestId, maxTokens: nat)
    requires StateOk(s)
    ensures StateOk(ReserveRequest(s, id, maxTokens).state)
  {
    var t := ReserveRequest(s, id, maxTokens).state;
    if t != s {
      MetaIgnoresReservations(s, t.reservations);
      hide MetaOk, Commitments;
      CommittedReserve(s.sequences, s.reservations, id, t.reservations[id]);
    }
  }

  lemma ReleaseReservationOk(s: KvState, id: RequestId)
    requires StateOk(s)
    ensures StateOk(ReleaseReservation(s, id))
  {
    MetaIgnoresReservations(s, s.reservations - {id});
    hide MetaOk, Commitments;
    CommittedFewer(s.sequences, s.reservations, s.sequences, id);
  }

  /** An idle state in which one sequence was set to `q`. */
  lemma SetSequenceOk(s: KvState, t: KvState, id: RequestId, q: PagedSequence)
    requires MetaOk(s) && s.pending.None? && t.pending.None?
    requires t.cfg == s.cfg && t.sequences == s.sequences[id := q] && SequenceOk(s.cfg, q)
    requires |t.pool.refs| == |s.pool.refs| && CacheOk(t.cache, t.cfg.cacheBlocks) && Counts(t.pool, Held(t))
    ensures MetaOk(t)
  {
    hide Counts, Held, CacheOk, SequenceOk, PendingOk;
  }

  lemma EmptyIsOk(cfg: Config)
    requires ConfigOk(cfg)
    ensures SequenceOk(cfg, EmptySequence)
  {
    PageCountBounds(0, cfg.blockTokens);
  }

  lemma CreateOk(s: KvState, id: RequestId)
    requires StateOk(s)
    ensures StateOk(Create(s, id).state)
  {
    var t := Create(s, id).state;
    if t != s {
      BagNewTable(s.sequences, id, EmptySequence);
      CommittedNewTable(s.sequences, s.reservations, id);
      assert Held(t) == Held(s);
      EmptyIsOk(s.cfg);
      hide Counts, Held, CacheOk, PageCount, Commitments, SequenceOk;
      SetSequenceOk(s, t, id, EmptySequence);
    }
  }

  // ---- Sharing ----

  lemma HeldAdopted(s: KvState, id: RequestId, q: PagedSequence, t: KvState)
    requires id in s.sequences && s.sequences[id].blocks == []
    requires t.sequences == s.sequences[id := q] && t.pending == s.pending && t.cache.entries == s.cache.entries
    ensures Held(t) == Held(s) + multiset(q.blocks)
  {
    OwnedSetTable(s, id, q);
    hide Tables, Bag, Leased;
    assert Bag(Tables(s.sequences[id := q])) == Bag(Tables(s.sequences)) + multiset(q.blocks);
  }

  lemma ForkMetaOk(s: KvState, source: RequestId, target: RequestId)
    requires MetaOk(s) && s.pending.None? && source in s.sequences && target in s.sequences && s.sequences[target] == EmptySequence
    ensures var q := s.sequences[source];
      MetaOk(s.(pool := RetainAll(s.pool, q.blocks), sequences := s.sequences[target := q]))
  {
    var q := s.sequences[source];
    var t := s.(pool := RetainAll(s.pool, q.blocks), sequences := s.sequences[target := q]);
    HeldAdopted(s, target, q, t);
    TableOwned(s, source);
    hide Held, CacheOk, SequenceOk, RetainAll, Counts;
    forall i | 0 <= i < |q.blocks| ensures q.blocks[i] in Held(s) {
      assert q.blocks[i] in multiset(q.blocks);
    }
    RetainAllCounts(s.pool, Held(s), q.blocks);
    SetSequenceOk(s, t, target, q);
  }

  lemma ForkOk(s: KvState, source: RequestId, target: RequestId)
    requires StateOk(s)
    ensures StateOk(Fork(s, source, target).state)
  {
    var t := Fork(s, source, target).state;
    hide MetaOk, Commitments, RetainAll;
    if t != s {
      ForkMetaOk(s, source, target);
      CommittedSetTable(s.sequences, s.reservations, target, s.sequences[source]);
    }
  }

  /** What `reuse` hands over is well formed and leased. */
  lemma AdoptedSequence(s: KvState, prompt: seq<Token>)
    requires MetaOk(s) && prompt != [] && |prompt| <= s.cfg.context
    ensures var m := Lookup(s.cache.entries.Keys, prompt, 0, s.cfg.blockTokens);
      && m.length < |prompt|
      && SequenceOk(s.cfg, PagedSequence(m.length, FoundBlocks(s.cache, m.path), prompt[..m.length]))
      && (forall i :: 0 <= i < |m.path| ==> m.path[i] in s.cache.entries)
      && (forall i :: 0 <= i < |m.path| ==> FoundBlocks(s.cache, m.path)[i] in Leased(s.cache.entries))
  {
    var keys := s.cache.entries.Keys;
    LookupAtLeast(keys, prompt, 0, s.cfg.blockTokens);
    LookupPath(keys, prompt, 0, 0, s.cfg.blockTokens);
    hide Lookup, PageCount, Counts, Held, CacheOk, Leased;
    var m := Lookup(keys, prompt, 0, s.cfg.blockTokens);
    forall i | 0 <= i < |m.path|
      ensures m.path[i] in s.cache.entries && FoundBlocks(s.cache, m.path)[i] in Leased(s.cache.entries)
    {
      assert PageMatches(keys, prompt, m.length, 0 + i, s.cfg.blockTokens, m.path[i]);
      LeasedMember(s.cache.entries, m.path[i]);
    }
  }

  lemma AdoptOk(s: KvState, id: RequestId, prompt: seq<Token>)
    requires MetaOk(s) && s.pending.None? && id in s.sequences && s.sequences[id] == EmptySequence
    requires prompt != [] && |prompt| <= s.cfg.context
    ensures MetaOk(Adopt(s, id, prompt))
    ensures id in Adopt(s, id, prompt).sequences
  {
    if s.cfg.cacheBlocks > 0 {
      AdoptedSequence(s, prompt);
      var m := Lookup(s.cache.entries.Keys, prompt, 0, s.cfg.blockTokens);
      var t := Adopt(s, id, prompt);
      TouchAllOk(s.cache, s.cfg.cacheBlocks, m.path);
      hide Lookup;
      HeldAdopted(s, id, t.sequences[id], t);
      RetainAllCounts(s.pool, Held(s), t.sequences[id].blocks);
      hide Counts, Held, CacheOk, SequenceOk, RetainAll, TouchAll, FoundBlocks;
      SetSequenceOk(s, t, id, t.sequences[id]);
    }
  }

  lemma DropOk(s: KvState, id: RequestId)
    requires MetaOk(s) && s.pending.None? && id in s.sequences
    ensures MetaOk(Drop(s, id))
  {
    var t := Drop(s, id);
    var table := s.sequences[id].blocks;
    TableOwned(s, id);
    OwnedSetTable(s, id, EmptySequence);
    assert Held(t) == Held(s) - multiset(table) by {
      hide Tables, Bag, Leased, Counts;
    }
    UnrefAllCounts(s.pool, Held(s), table);
    EmptyIsOk(s.cfg);
    hide Counts, Held, CacheOk, SequenceOk, UnrefAll;
    SetSequenceOk(s, t, id, EmptySequence);
  }

  /** A dropped sequence only lowers the promises. */
  lemma DropBounded(s: KvState, id: RequestId)
    requires id in s.sequences
    ensures Committed(Drop(s, id)) <= Committed(s)
  {
    CommittedSetTable(s.sequences, s.reservations, id, EmptySequence);
  }

  lemma ReusePrefixOk(s: KvState, id: RequestId, prompt: seq<Token>)
    requires StateOk(s)
    ensures StateOk(ReusePrefix(s, id, prompt).state)
  {
    hide Counts, Held, CacheOk, SequenceOk, Commitments, Adopt, ValidTokens;
    var r := ReusePrefix(s, id, prompt);
    if r.state != s {
      AdoptOk(s, id, prompt);
      var t := Adopt(s, id, prompt);
      AdoptFrame(s, id, prompt);
      if r.reply.Thrown? {
        DropOk(t, id);
        DropEmptied(s, t, id);
      }
    }
  }

  lemma AdoptFrame(s: KvState, id: RequestId, prompt: seq<Token>)
    requires ConfigOk(s.cfg) && prompt != [] && id in s.sequences
    ensures var t := Adopt(s, id, prompt);
      t.cfg == s.cfg && t.reservations == s.reservations && t.pending == s.pending && id in t.sequences
      && t.sequences == s.sequences[id := t.sequences[id]]
  {
  }

  /** Dropping an adopted table restores the promises of the state before. */
  lemma DropEmptied(s: KvState, t: KvState, id: RequestId)
    requires Bounded(s) && id in s.sequences && s.sequences[id] == EmptySequence
    requires t.cfg == s.cfg && t.reservations == s.reservations && id in t.sequences && t.sequences == s.sequences[id := t.sequences[id]]
    ensures Bounded(Drop(t, id))
  {
    assert Drop(t, id).sequences == s.sequences;
  }

  lemma CachePrefixOk(s: KvState, id: RequestId)
    requires StateOk(s)
    ensures StateOk(CachePrefix(s, id).state)
  {
    var t := CachePrefix(s, id).state;
    if t != s {
      var q, size, cap := s.sequences[id], s.cfg.blockTokens, s.cfg.cacheBlocks;
      PublishOk(s, id);
      assert Held(t) == Owned(s) + Leased(t.cache.entries);
      hide Counts, Held, CacheOk, SequenceOk, Publish, Commitments;
      assert s.sequences == s.sequences[id := q];
      SetSequenceOk(s, t, id, q);
    }
  }

  lemma PublishOk(s: KvState, id: RequestId)
    requires MetaOk(s) && id in s.sequences
    ensures var q := s.sequences[id];
      StockOk(Publish(StockOf(s), s.cfg.cacheBlocks, s.cfg.blockTokens, q.tokens, q.blocks), s.cfg.cacheBlocks, Owned(s))
    ensures |Publish(StockOf(s), s.cfg.cacheBlocks, s.cfg.blockTokens, s.sequences[id].tokens, s.sequences[id].blocks).pool.refs| == |s.pool.refs|
  {
    var q, size, cap := s.sequences[id], s.cfg.blockTokens, s.cfg.cacheBlocks;
    TableOwned(s, id);
    forall j | 0 <= j < |q.blocks| ensures q.blocks[j] in Owned(s) {
      assert q.blocks[j] in multiset(q.blocks);
    }
    assert StockOk(StockOf(s), cap, Owned(s)) by {
      assert Held(s) == Owned(s) + Leased(s.cache.entries);
    }
    var n := PublishCount(q.tokens, q.blocks, size, cap);
    hide Counts, Held, CacheOk, PageCount, StockOk, Owned, Leased;
    PublishPagesOk(StockOf(s), cap, size, Owned(s), q.tokens, q.blocks, n);
    PublishPagesSize(StockOf(s), cap, size, q.tokens, q.blocks, n);
  }

  lemma {:induction false} PublishPagesSize(s: Stock, capacity: nat, size: nat, tokens: seq<Token>, table: seq<nat>, n: nat)
    requires n <= |table|
    ensures |PublishPages(s, capacity, size, tokens, table, n).pool.refs| == |s.pool.refs|
    decreases n
  {
    if n > 0 {
      PublishPagesSize(s, capacity, size, tokens, table, n - 1);
    }
  }

  lemma ResetOk(s: KvState, id: RequestId)
    requires StateOk(s)
    ensures StateOk(Reset(s, id).state)
  {
    hide Counts, Held, CacheOk, SequenceOk, Commitments, UnrefAll;
    if s.pending.None? && id in s.sequences {
      DropOk(s, id);
      DropBounded(s, id);
    }
  }

  lemma ReleaseMetaOk(s: KvState, id: RequestId)
    requires MetaOk(s) && s.pending.None? && id in s.sequences
    ensures MetaOk(s.(pool := UnrefAll(s.pool, s.sequences[id].blocks), sequences := s.sequences - {id}))
  {
    var table := s.sequences[id].blocks;
    var t := s.(pool := UnrefAll(s.pool, table), sequences := s.sequences - {id});
    TableOwned(s, id);
    BagDropTable(s.sequences, id);
    assert Held(t) == Held(s) - multiset(table) by {
      hide Tables, Bag, Leased, Counts;
    }
    UnrefAllCounts(s.pool, Held(s), table);
    hide Counts, Held, CacheOk, SequenceOk, UnrefAll;
  }

  lemma ReleaseOk(s: KvState, id: RequestId)
    requires StateOk(s)
    ensures StateOk(Release(s, id).state)
  {
    hide MetaOk, Commitments, UnrefAll;
    if s.pending.None? && id in s.sequences {
      var t := s.(pool := UnrefAll(s.pool, s.sequences[id].blocks), sequences := s.sequences - {id});
      ReleaseMetaOk(s, id);
      MetaIgnoresReservations(t, t.reservations - {id});
      CommittedFewer(s.sequences, s.reservations, s.sequences - {id}, id);
    }
  }

  /** With every sequence, lease and reservation gone, a fully counted pool is entirely free. */
  ghost predicate Cleared(s: KvState, t: KvState) {
    && t.cfg == s.cfg && |t.pool.refs| == |s.pool.refs|
    && t.cache == Flat(map[], []) && t.sequences == map[] && t.reservations == map[] && t.pending == None
    && Counts(t.pool, multiset{})
  }

  lemma ClearedOk(s: KvState, t: KvState)
    requires StateOk(s) && Cleared(s, t)
    ensures StateOk(t)
    ensures |t.pool.free| == t.cfg.maxBlocks && forall b :: 0 <= b < t.cfg.maxBlocks ==> t.pool.refs[b] == 0
  {
    assert Tables(t.sequences) == map[];
    assert LeaseTable(t.cache.entries) == map[];
    assert Held(t) == multiset{};
    FreePlusDistinct(t.pool, multiset{});
    assert Support(multiset{}) == {};
  }
}
