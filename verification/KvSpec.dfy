/** The metadata state machine of the KV manager (miniprefix/src/kv/kv_manager.cpp), as functions on values. */
module KvSpec {
  import opened Prelude
  import opened PageKeys
  import opened KvPool
  import opened FlatCache
  import opened PrefixMatch

  type RequestId = string

  datatype Config = Config(blockTokens: nat, maxBlocks: nat, cacheBlocks: nat, context: nat, vocabulary: nat)

  predicate ConfigOk(c: Config) {
    c.blockTokens >= 1 && c.maxBlocks >= 1 && c.cacheBlocks <= c.maxBlocks && c.context >= 1 && c.vocabulary >= 1
  }

  datatype PagedSequence = PagedSequence(used: nat, blocks: seq<nat>, tokens: seq<Token>)

  const EmptySequence := PagedSequence(0, [], [])

  datatype TailCopy = TailCopy(source: nat, destination: nat, validTokens: nat)

  /** The one append transaction that may be open. */
  datatype Pending = Pending(id: RequestId, tokens: seq<Token>, original: nat, copy: Option<TailCopy>, copied: bool)

  datatype KvState = KvState(
    cfg: Config, pool: Pool, cache: Flat,
    sequences: map<RequestId, PagedSequence>, reservations: map<RequestId, nat>,
    pending: Option<Pending>)

  /** The exceptions of the source: invalid_argument, logic_error, out_of_range, KvCapacityError and a backend runtime_error. */
  datatype Error = Invalid | Logic | Missing | Capacity | Fault
  datatype Reply<+T> = Value(value: T) | Thrown(error: Error)
  datatype Admission = Ready | Wait | Impossible
  datatype Outcome<+T> = Outcome(state: KvState, reply: Reply<T>)

  function Refuse<T>(s: KvState, e: Error): Outcome<T> {
    Outcome(s, Thrown(e))
  }

  // ---- Accounting ----

  ghost function Tables(sequences: map<RequestId, PagedSequence>): map<RequestId, seq<nat>> {
    map id | id in sequences :: sequences[id].blocks
  }

  ghost function PendingSource(p: Option<Pending>): multiset<nat> {
    if p.Some? && p.value.copy.Some? then multiset{p.value.copy.value.source} else multiset{}
  }

  /** Everything that holds a page: block tables, cache leases and the source of the open tail copy. */
  ghost function Held(s: KvState): multiset<nat> {
    Bag(Tables(s.sequences)) + PendingSource(s.pending) + Leased(s.cache.entries)
  }

  /** Pages promised to each request: its reservation, or the table of an unreserved sequence. */
  ghost function Commitments(sequences: map<RequestId, PagedSequence>, reservations: map<RequestId, nat>): map<RequestId, nat> {
    map id | id in reservations.Keys + sequences.Keys ::
      if id in reservations then reservations[id] else |sequences[id].blocks|
  }

  ghost function Committed(s: KvState): nat {
    Total(Commitments(s.sequences, s.reservations))
  }

  // ---- Admission ----

  ghost function ReserveRequest(s: KvState, id: RequestId, maxTokens: nat): Outcome<Admission>
    requires ConfigOk(s.cfg)
  {
    if s.pending.Some? then Refuse(s, Logic)
    else if id in s.sequences || id in s.reservations then Refuse(s, Invalid)
    else if maxTokens == 0 || maxTokens > s.cfg.context then Refuse(s, Invalid)
    else
      var pages := 1 + (maxTokens - 1) / s.cfg.blockTokens;
      if pages > s.cfg.maxBlocks then Outcome(s, Value(Impossible))
      else if Committed(s) > s.cfg.maxBlocks || pages > s.cfg.maxBlocks - Committed(s) then Outcome(s, Value(Wait))
      else Outcome(s.(reservations := s.reservations[id := pages]), Value(Ready))
  }

  function ReleaseReservation(s: KvState, id: RequestId): KvState {
    s.(reservations := s.reservations - {id})
  }

  // ---- Sequences ----

  function Create(s: KvState, id: RequestId): Outcome<()> {
    if s.pending.Some? then Refuse(s, Logic)
    else if id in s.sequences then Refuse(s, Invalid)
    else Outcome(s.(sequences := s.sequences[id := EmptySequence]), Value(()))
  }

  ghost function Fork(s: KvState, source: RequestId, target: RequestId): Outcome<()> {
    if s.pending.Some? then Refuse(s, Logic)
    else if source !in s.sequences || target !in s.sequences then Refuse(s, Missing)
    else if source == target || s.sequences[target] != EmptySequence then Refuse(s, Invalid)
    else
      var original := s.sequences[source];
      if (if target in s.reservations then |original.blocks| > s.reservations[target]
          else Committed(s) > s.cfg.maxBlocks || |original.blocks| > s.cfg.maxBlocks - Committed(s))
      then Refuse(s, Capacity)
      else Outcome(s.(pool := RetainAll(s.pool, original.blocks), sequences := s.sequences[target := original]), Value(()))
  }

  predicate ValidTokens(tokens: seq<Token>, vocabulary: nat) {
    forall i :: 0 <= i < |tokens| ==> 0 <= tokens[i] < vocabulary
  }

  /** Adoption of the longest cached prefix by an empty sequence. */
  ghost function Adopt(s: KvState, id: RequestId, prompt: seq<Token>): KvState
    requires ConfigOk(s.cfg) && prompt != []
  {
    if s.cfg.cacheBlocks == 0 then s
    else
      var m := Lookup(s.cache.entries.Keys, prompt, 0, s.cfg.blockTokens);
      LookupAtLeast(s.cache.entries.Keys, prompt, 0, s.cfg.blockTokens);
      var blocks := FoundBlocks(s.cache, m.path);
      s.(pool := RetainAll(s.pool, blocks), cache := TouchAll(s.cache, m.path),
         sequences := s.sequences[id := PagedSequence(m.length, blocks, prompt[..m.length])])
  }

  function Drop(s: KvState, id: RequestId): KvState
    requires id in s.sequences
  {
    s.(pool := UnrefAll(s.pool, s.sequences[id].blocks), sequences := s.sequences[id := EmptySequence])
  }

  ghost function ReusePrefix(s: KvState, id: RequestId, prompt: seq<Token>): Outcome<nat>
    requires ConfigOk(s.cfg)
  {
    if prompt == [] || |prompt| > s.cfg.context || !ValidTokens(prompt, s.cfg.vocabulary) then Refuse(s, Invalid)
    else if s.pending.Some? then Refuse(s, Logic)
    else if id !in s.sequences then Refuse(s, Missing)
    else if s.sequences[id] != EmptySequence then Refuse(s, Invalid)
    else
      var t := Adopt(s, id, prompt);
      if id in t.reservations && |t.sequences[id].blocks| > t.reservations[id] then Refuse(Drop(t, id), Capacity)
      else if t.reservations.Keys != {} && Committed(t) > t.cfg.maxBlocks then Refuse(Drop(t, id), Capacity)
      else Outcome(t, Value(t.sequences[id].used))
  }

  function StockOf(s: KvState): Stock {
    Stock(s.pool, s.cache)
  }

  function CachePrefix(s: KvState, id: RequestId): Outcome<()>
    requires ConfigOk(s.cfg)
  {
    if s.pending.Some? then Refuse(s, Logic)
    else if id !in s.sequences then Refuse(s, Missing)
    else if s.sequences[id].used != |s.sequences[id].tokens| then Refuse(s, Logic)
    else
      var t := Publish(StockOf(s), s.cfg.cacheBlocks, s.cfg.blockTokens, s.sequences[id].tokens, s.sequences[id].blocks);
      Outcome(s.(pool := t.pool, cache := t.cache), Value(()))
  }

  function Reset(s: KvState, id: RequestId): Outcome<()> {
    if s.pending.Some? then Refuse(s, Logic)
    else if id !in s.sequences then Refuse(s, Missing)
    else Outcome(Drop(s, id), Value(()))
  }

  function Release(s: KvState, id: RequestId): Outcome<()> {
    if s.pending.Some? then Refuse(s, Logic)
    else if id !in s.sequences then Refuse(s, Invalid)
    else
      Outcome(s.(pool := UnrefAll(s.pool, s.sequences[id].blocks),
                 sequences := s.sequences - {id}, reservations := s.reservations - {id}), Value(()))
  }

  // ---- Append transactions ----

  datatype Room = Room(stock: Stock, cow: bool)

  /** The pressure loop: evict until `required` pages (and one more for a copy) are free; an eviction
      that leaves the tail unshared cancels the copy. */
  function MakeRoom(stock: Stock, required: nat, cow: bool, tail: nat): Room
    decreases |stock.cache.lru|
  {
    if |stock.pool.free| >= required + (if cow then 1 else 0) || stock.cache.lru == []
       || stock.cache.lru[0] !in stock.cache.entries
    then Room(stock, cow)
    else
      var next := Evict(stock);
      MakeRoom(next, required, cow && !(tail < |next.pool.refs| && next.pool.refs[tail] == 1), tail)
  }

  function Tail(q: PagedSequence): nat {
    if q.blocks == [] then 0 else q.blocks[|q.blocks| - 1]
  }

  function NeedsCopy(s: KvState, q: PagedSequence): bool
    requires ConfigOk(s.cfg)
  {
    q.used % s.cfg.blockTokens != 0 && Tail(q) < |s.pool.refs| && s.pool.refs[Tail(q)] > 1
  }

  /** The logical test: the page bound of a reserved request, or the unreserved remainder of the pool. */
  ghost predicate WithinBounds(s: KvState, id: RequestId, count: nat)
    requires id in s.sequences
  {
    s.reservations.Keys == {} ||
    if id in s.reservations then count <= s.reservations[id]
    else Committed(s) + (if count > |s.sequences[id].blocks| then count - |s.sequences[id].blocks| else 0) <= s.cfg.maxBlocks
  }

  function Required(q: PagedSequence, count: nat): nat {
    if count > |q.blocks| then count - |q.blocks| else 0
  }

  /** Opens the transaction once room has been made: new pages first, then the replacement of a shared tail. */
  function Open(s: KvState, id: RequestId, tokens: seq<Token>, required: nat, cow: bool): KvState
    requires ConfigOk(s.cfg) && id in s.sequences && required + (if cow then 1 else 0) <= |s.pool.free|
  {
    var q := s.sequences[id];
    var added := Taken(s.pool, required);
    var grown := AllocateMany(s.pool, required);
    if cow && q.blocks != [] then
      var replacement := s.pool.free[|s.pool.free| - 1 - required];
      var copy := TailCopy(Tail(q), replacement, q.used % s.cfg.blockTokens);
      s.(pool := Allocate(grown),
         sequences := s.sequences[id := q.(blocks := q.blocks[|q.blocks| - 1 := replacement] + added)],
         pending := Some(Pending(id, tokens, |q.blocks|, Some(copy), false)))
    else
      s.(pool := grown, sequences := s.sequences[id := q.(blocks := q.blocks + added)],
         pending := Some(Pending(id, tokens, |q.blocks|, None, false)))
  }

  ghost function PrepareAppend(s: KvState, id: RequestId, tokens: seq<Token>): Outcome<()>
    requires ConfigOk(s.cfg)
  {
    if s.pending.Some? then Refuse(s, Logic)
    else if id !in s.sequences then Refuse(s, Missing)
    else
      var q := s.sequences[id];
      if tokens == [] || q.used + |tokens| > s.cfg.context || !ValidTokens(tokens, s.cfg.vocabulary) then Refuse(s, Invalid)
      else
        var count := PageCount(q.used + |tokens|, s.cfg.blockTokens);
        if !WithinBounds(s, id, count) then Refuse(s, Capacity)
        else
          var room := MakeRoom(StockOf(s), Required(q, count), NeedsCopy(s, q), Tail(q));
          var t := s.(pool := room.stock.pool, cache := room.stock.cache);
          if Required(q, count) + (if room.cow then 1 else 0) > |t.pool.free| then Refuse(t, Capacity)
          else Outcome(Open(t, id, tokens, Required(q, count), room.cow), Value(()))
  }

  function MarkCopied(s: KvState): KvState
    requires s.pending.Some?
  {
    s.(pending := Some(s.pending.value.(copied := s.pending.value.copied || s.pending.value.copy.Some?)))
  }

  function Commit(s: KvState): Outcome<()>
    requires s.pending.Some? && s.pending.value.id in s.sequences
  {
    var p := s.pending.value;
    if p.copy.Some? && !p.copied then Refuse(s, Logic)
    else
      var q := s.sequences[p.id];
      Outcome(s.(
        pool := if p.copy.Some? then Unref(s.pool, p.copy.value.source) else s.pool,
        sequences := s.sequences[p.id := q.(used := q.used + |p.tokens|, tokens := q.tokens + p.tokens)],
        pending := None), Value(()))
  }

  /** The table as it was before the transaction. */
  function OriginalTable(blocks: seq<nat>, p: Pending): seq<nat> {
    if p.original > |blocks| then blocks
    else if p.copy.Some? && p.original > 0 then blocks[..p.original][p.original - 1 := p.copy.value.source]
    else blocks[..p.original]
  }

  function Rollback(s: KvState): KvState
    requires s.pending.Some? && s.pending.value.id in s.sequences && s.pending.value.original <= |s.sequences[s.pending.value.id].blocks|
  {
    var p := s.pending.value;
    var q := s.sequences[p.id];
    var trimmed := UnrefAll(s.pool, q.blocks[p.original..]);
    s.(pool := if p.copy.Some? then Unref(trimmed, p.copy.value.destination) else trimmed,
       sequences := s.sequences[p.id := q.(blocks := OriginalTable(q.blocks, p))],
       pending := None)
  }
}
