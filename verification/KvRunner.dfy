/** A model runner over the KV manager (miniprefix/src/backend/cpu/llama_runner.cpp): prepare the append, copy a shared
    tail, compute and store one row per new position reading the past only through the block table, commit. */
module KvRunner {
  import opened Arithmetic
  import opened Prelude
  import opened PageKeys
  import opened KvPool
  import opened FlatCache
  import opened PrefixMatch
  import opened PrefixTrie
  import opened KvSpec
  import opened KvInvariant
  import opened KvOperations
  import opened KvAppend
  import opened CausalModel
  import opened KvContent
  import opened KvWrites
  import opened LruOrder
  import opened KvEviction
  import opened KvManager
  import L = KvLayout

  // ---- The buffers as a memory of rows ----

  ghost function PageOf(keys: seq<real>, values: seq<real>, g: L.Grid, b: nat): (r: seq<Payload>)
    requires |keys| == |values| == L.Elements(g) && b < g.blocks
    ensures |r| == g.slots
  {
    seq(g.slots, s requires 0 <= s < g.slots => Payload(L.RowOf(keys, g, b, s), L.RowOf(values, g, b, s)))
  }

  ghost function MemoryOf(keys: seq<real>, values: seq<real>, g: L.Grid): (r: Memory)
    requires |keys| == |values| == L.Elements(g)
    ensures |r| == g.blocks && forall b :: 0 <= b < |r| ==> |r[b]| == g.slots
  {
    seq(g.blocks, b requires 0 <= b < g.blocks => PageOf(keys, values, g, b))
  }

  lemma RowPutMemory(k: seq<real>, v: seq<real>, k': seq<real>, v': seq<real>, g: L.Grid, b: nat, slot: nat, row: Payload)
    requires |k| == |v| == |k'| == |v'| == L.Elements(g) && b < g.blocks && slot < g.slots
    requires L.RowPut(k, k', g, b, slot, row.key) && L.RowPut(v, v', g, b, slot, row.value)
    ensures MemoryOf(k', v', g) == SetPage(MemoryOf(k, v, g), b, MemoryOf(k, v, g)[b][slot := row])
  {
    hide L.Elements, L.RowOf;
    var mem, next := MemoryOf(k, v, g), MemoryOf(k', v', g);
    forall x: nat | x < g.blocks ensures next[x] == if x == b then mem[b][slot := row] else mem[x] {
    }
  }

  lemma TailPutMemory(k: seq<real>, v: seq<real>, k': seq<real>, v': seq<real>, g: L.Grid, copy: TailCopy)
    requires |k| == |v| == |k'| == |v'| == L.Elements(g)
    requires copy.source < g.blocks && copy.destination < g.blocks && copy.validTokens <= g.slots
    requires L.TailPut(k, k', g, copy.destination, copy.source, copy.validTokens)
    requires L.TailPut(v, v', g, copy.destination, copy.source, copy.validTokens)
    ensures MemoryOf(k', v', g) == SetPage(MemoryOf(k, v, g), copy.destination, CopiedPage(MemoryOf(k, v, g), copy))
  {
    hide L.Elements, L.RowOf;
    var mem, next := MemoryOf(k, v, g), MemoryOf(k', v', g);
    var page := CopiedPage(mem, copy);
    forall x: nat | x < g.blocks ensures next[x] == if x == copy.destination then page else mem[x] {
    }
  }

  // ---- One new position ----

  /** The open append is ready for rows: no tail copy is outstanding. */
  ghost predicate ReadyToWrite(s: KvState) {
    s.pending.Some? && s.pending.value.id in s.sequences && (s.pending.value.copy.None? || s.pending.value.copied)
  }

  /** Rows of the first `i` new positions are in place. */
  ghost predicate Written(m: Model, s: KvState, mem: Memory, i: nat)
    requires ConfigOk(s.cfg) && ReadyToWrite(s)
  {
    var p := s.pending.value;
    i <= |p.tokens| && TableHolds(m, s.cfg.blockTokens, mem, s.sequences[p.id].blocks, s.sequences[p.id].tokens + p.tokens[..i])
  }

  lemma WritablePage(used: nat, i: nat, count: nat, original: nat, pages: nat, size: nat)
    requires size > 0 && i < count && original == PageCount(used, size) && pages == PageCount(used + count, size)
    ensures var j := (used + i) / size; FirstWritable(used, original, size) <= j < pages && original <= j + 1
    ensures var j := (used + i) / size; ValidSlots(used, j, size) <= (used + i) % size < size && used + i == j * size + (used + i) % size
  {
    DivisionBounds(used + i, size);
    DivisionBounds(used, size);
    DivisionBounds(used + count, size);
    var j, u, e := (used + i) / size, used / size, (used + count) / size;
    MulMonotone(u, j, size);
    MulMonotone(j + 1, u, size);
    MulMonotone(j, e, size);
    MulMonotone(e + 1, j, size);
    MulMonotone(e, j, size);
  }

  /** One slot replaced. */
  function Store(mem: Memory, b: nat, slot: nat, row: Payload): Memory
    requires b < |mem| && slot < |mem[b]|
  {
    SetPage(mem, b, mem[b][slot := row])
  }

  /** Position `i` of the append has a page of its own table to go to. */
  ghost predicate HasPlace(s: KvState, mem: Memory, i: nat)
    requires ConfigOk(s.cfg) && ReadyToWrite(s)
  {
    var q, size := s.sequences[s.pending.value.id], s.cfg.blockTokens;
    var j := (q.used + i) / size;
    j < |q.blocks| && q.blocks[j] < |mem| && |mem[q.blocks[j]]| == size
  }

  /** The memory after storing the row of new position `i`. */
  ghost function AfterRow(m: Model, s: KvState, mem: Memory, i: nat): Memory
    requires ConfigOk(s.cfg) && ReadyToWrite(s) && HasPlace(s, mem, i) && i < |s.pending.value.tokens|
  {
    var p, size := s.pending.value, s.cfg.blockTokens;
    var q := s.sequences[p.id];
    Store(mem, q.blocks[(q.used + i) / size], (q.used + i) % size, Row(m, q.tokens + p.tokens[..i] + [p.tokens[i]]))
  }

  /** Writing the next row keeps everything committed and extends the table by one position. */
  lemma WriteNext(m: Model, s: KvState, mem: Memory, i: nat)
    requires ConfigOk(s.cfg) && ReadyToWrite(s) && i < |s.pending.value.tokens|
    requires ContentOk(m, s, mem) && Written(m, s, mem, i) && StateOk(s)
    ensures HasPlace(s, mem, i) && ContentOk(m, s, AfterRow(m, s, mem, i)) && Written(m, s, AfterRow(m, s, mem, i), i + 1)
  {
    hide Written, ContentOk, PageCount, FirstWritable, TableHolds, StateOk, ValidSlots, OnlyHolder;
    var p, size := s.pending.value, s.cfg.blockTokens;
    var q := s.sequences[p.id];
    var h, t := q.tokens + p.tokens[..i], p.tokens[i];
    var j, slot := (q.used + i) / size, (q.used + i) % size;
    PendingNumbers(s);
    WritablePage(q.used, i, |p.tokens|, p.original, |q.blocks|, size);
    WriteAt(m, s, mem, j, slot, Row(m, h + [t]));
    WritePlace(m, s, mem, i, j);
    RowExtendsTable(m, size, mem, q.blocks, h, t, j, slot);
    WrittenMore(m, s, AfterRow(m, s, mem, i), i);
  }

  lemma WrittenMore(m: Model, s: KvState, mem: Memory, i: nat)
    requires ConfigOk(s.cfg) && ReadyToWrite(s) && i < |s.pending.value.tokens|
    requires var p := s.pending.value;
      TableHolds(m, s.cfg.blockTokens, mem, s.sequences[p.id].blocks, s.sequences[p.id].tokens + p.tokens[..i] + [p.tokens[i]])
    ensures Written(m, s, mem, i + 1)
  {
    var p := s.pending.value;
    assert s.sequences[p.id].tokens + p.tokens[..i] + [p.tokens[i]] == s.sequences[p.id].tokens + p.tokens[..i + 1];
  }

  lemma PendingNumbers(s: KvState)
    requires StateOk(s) && ReadyToWrite(s)
    ensures var p := s.pending.value;
      var q := s.sequences[p.id];
      && ConfigOk(s.cfg) && q.used == |q.tokens| && p.tokens != [] && p.original == PageCount(q.used, s.cfg.blockTokens)
      && |q.blocks| == PageCount(q.used + |p.tokens|, s.cfg.blockTokens)
  {
    hide PageCount, SoleHolder, Held;
  }

  lemma WritePlace(m: Model, s: KvState, mem: Memory, i: nat, j: nat)
    requires ConfigOk(s.cfg) && ReadyToWrite(s) && ContentOk(m, s, mem) && Written(m, s, mem, i) && StateOk(s)
    requires FirstWritable(s.sequences[s.pending.value.id].used, s.pending.value.original, s.cfg.blockTokens) <= j < |s.sequences[s.pending.value.id].blocks|
    ensures var p := s.pending.value;
      var q := s.sequences[p.id];
      && q.blocks[j] < |mem| && |mem[q.blocks[j]]| == s.cfg.blockTokens
      && OnlyHolder(s, q.blocks[j], j) && (forall x :: 0 <= x < |q.blocks| && x != j ==> q.blocks[x] != q.blocks[j])
      && TableHolds(m, s.cfg.blockTokens, mem, q.blocks, q.tokens + p.tokens[..i])
  {
    SoleAtWritable(s, j);
    PendingPageInPool(s, j);
    hide StateOk, Held, FirstWritable, TableHolds, PageCount;
  }

  lemma PendingPageInPool(s: KvState, j: nat)
    requires StateOk(s) && ReadyToWrite(s) && j < |s.sequences[s.pending.value.id].blocks|
    ensures s.sequences[s.pending.value.id].blocks[j] < s.cfg.maxBlocks
  {
    TableCovered(s, s.pending.value.id);
  }

  lemma WriteAt(m: Model, s: KvState, mem: Memory, j: nat, slot: nat, row: Payload)
    requires ConfigOk(s.cfg) && ReadyToWrite(s) && ContentOk(m, s, mem) && s.pending.value.original <= j + 1 && StateOk(s)
    requires FirstWritable(s.sequences[s.pending.value.id].used, s.pending.value.original, s.cfg.blockTokens) <= j < |s.sequences[s.pending.value.id].blocks|
    requires ValidSlots(s.sequences[s.pending.value.id].used, j, s.cfg.blockTokens) <= slot < s.cfg.blockTokens
    ensures var b := s.sequences[s.pending.value.id].blocks[j];
      b < |mem| && |mem[b]| == s.cfg.blockTokens && ContentOk(m, s, SetPage(mem, b, mem[b][slot := row]))
  {
    SoleAtWritable(s, j);
    PendingPageInPool(s, j);
    var b := s.sequences[s.pending.value.id].blocks[j];
    assert |mem| == s.cfg.maxBlocks && |mem[b]| == s.cfg.blockTokens;
    hide ContentOk, FirstWritable, OnlyHolder, Bounded, ValidSlots;
    WriteKeepsContent(m, s, mem, j, mem[b][slot := row]);
  }

  // ---- What a caller sees ----

  /** The committed token history of every sequence. */
  ghost function Histories(s: KvState): map<RequestId, seq<Token>> {
    map id | id in s.sequences :: s.sequences[id].tokens
  }

  /** A valid append that stays within its reservation. */
  predicate Admitted(cfg: Config, histories: map<RequestId, seq<Token>>, reservations: map<RequestId, nat>, id: RequestId, tokens: seq<Token>) {
    && cfg.blockTokens > 0 && id in histories && tokens != []
    && |histories[id]| + |tokens| <= cfg.context && ValidTokens(tokens, cfg.vocabulary)
    && id in reservations && PageCount(|histories[id]| + |tokens|, cfg.blockTokens) <= reservations[id]
  }

  lemma AdmittedOpens(s: KvState, id: RequestId, tokens: seq<Token>)
    requires ConfigOk(s.cfg) && s.pending.None? && StateOk(s)
    ensures Admitted(s.cfg, Histories(s), s.reservations, id, tokens) ==> PrepareAppend(s, id, tokens).reply.Value?
  {
    if Admitted(s.cfg, Histories(s), s.reservations, id, tokens) {
      SequenceKnown(s, id);
      hide StateOk, PageCount, ValidTokens;
      assert s.reservations.Keys != {};
      AppendRefusedIffOutOfBounds(s, id, tokens);
      hide PrepareAppend;
    }
  }

  /** The history of `id`, and no other, grew by `tokens`, and `logits` are those of the grown history. */
  ghost predicate Appended(m: Model, vocabulary: nat, before: map<RequestId, seq<Token>>, after: map<RequestId, seq<Token>>,
                           id: RequestId, tokens: seq<Token>, logits: seq<real>) {
    && id in before && tokens != [] && after == before[id := before[id] + tokens]
    && logits == Logits(m, before[id] + tokens) && |logits| == vocabulary
  }

  lemma SequenceKnown(s: KvState, id: RequestId)
    requires ConfigOk(s.cfg) && s.pending.None? && id in s.sequences && StateOk(s)
    ensures SequenceOk(s.cfg, s.sequences[id])
  {
    hide SequenceOk, Bounded;
  }

  /** Opening an append shows no caller anything; it only writes down what is to come. */
  lemma PrepareView(s: KvState, id: RequestId, tokens: seq<Token>)
    requires ConfigOk(s.cfg) && StateOk(s)
    ensures var o := PrepareAppend(s, id, tokens);
      && o.state.cfg == s.cfg && Histories(o.state) == Histories(s) && o.state.reservations == s.reservations
      && (o.reply.Thrown? ==> o.state.pending == s.pending && o.reply.error != Fault)
      && (o.reply.Value? ==>
            && s.pending.None? && id in s.sequences && id in o.state.sequences && tokens != []
            && o.state.pending.Some? && o.state.pending.value.id == id && o.state.pending.value.tokens == tokens && !o.state.pending.value.copied
            && o.state.sequences[id].tokens == s.sequences[id].tokens)
  {
    hide StateOk, PageCount, RoomFor, WithinBounds, PrepareAppend, Open, Histories, Evicted;
    PrepareOutcome(s, id, tokens);
    if ValidAppend(s, id, tokens) {
      var q := s.sequences[id];
      var count := PageCount(q.used + |tokens|, s.cfg.blockTokens);
      var t, cow := Evicted(s, id, count), RoomFor(s, id, count).cow;
      EvictedView(s, id, count);
      if Required(q, count) + (if cow then 1 else 0) <= |t.pool.free| {
        OpenView(t, id, tokens, Required(q, count), cow);
      }
    }
  }

  lemma EvictedView(s: KvState, id: RequestId, count: nat)
    requires ConfigOk(s.cfg) && StateOk(s) && s.pending.None? && id in s.sequences
    ensures var t := Evicted(s, id, count);
      && t.cfg == s.cfg && t.sequences == s.sequences && t.reservations == s.reservations && t.pending.None? && Histories(t) == Histories(s)
      && (RoomFor(s, id, count).cow ==> s.sequences[id].blocks != [])
  {
    hide StateOk, RoomFor, CowExact;
    EvictedOk(s, id, count);
  }

  lemma OpenView(s: KvState, id: RequestId, tokens: seq<Token>, required: nat, cow: bool)
    requires ConfigOk(s.cfg) && id in s.sequences && required + (if cow then 1 else 0) <= |s.pool.free| && (cow ==> s.sequences[id].blocks != [])
    ensures var t := Open(s, id, tokens, required, cow);
      && t.cfg == s.cfg && t.reservations == s.reservations && Histories(t) == Histories(s)
      && id in t.sequences && t.sequences[id].tokens == s.sequences[id].tokens
      && t.pending.Some? && t.pending.value.id == id && t.pending.value.tokens == tokens && !t.pending.value.copied
  {
    hide Open, OriginalTable;
    OpenShape(s, id, tokens, required, cow);
  }

  lemma RollbackView(s: KvState)
    requires s.pending.Some? && s.pending.value.id in s.sequences && s.pending.value.original <= |s.sequences[s.pending.value.id].blocks|
    ensures Histories(Rollback(s)) == Histories(s) && Rollback(s).pending.None? && Rollback(s).reservations == s.reservations && Rollback(s).cfg == s.cfg
  {
    hide UnrefAll, Unref, OriginalTable;
  }

  lemma CommitView(s: KvState)
    requires s.pending.Some? && s.pending.value.id in s.sequences && (s.pending.value.copy.None? || s.pending.value.copied)
    ensures var p, t := s.pending.value, Commit(s).state;
      && Commit(s).reply.Value? && t.pending.None? && t.reservations == s.reservations && t.cfg == s.cfg
      && Histories(t) == Histories(s)[p.id := s.sequences[p.id].tokens + p.tokens]
  {
    hide Unref;
  }

  /** Rows and logits of the right size; nothing else is assumed of the kernels. */
  ghost predicate Shaped(m: Model, g: L.Grid, vocabulary: nat) {
    && (forall rows: seq<Payload>, t: Token :: L.RowShape(g, m.encode(rows, t).key) && L.RowShape(g, m.encode(rows, t).value))
    && (forall rows: seq<Payload>, t: Token :: |m.logits(rows, t)| == vocabulary)
  }

  class Runner {
    const model: Model
    const kv: KVManager
    const keys: L.KvPayload
    const values: L.KvPayload
    /** Whether the backend never fails and adds no capacity bound of its own. */
    const reliable: bool

    ghost function Footprint(): set<object> {
      {kv, kv.pool, kv.prefix, keys.data, values.data}
    }

    ghost predicate Buffers()
      reads keys, values, keys.data, values.data
    {
      && keys.Valid() && values.Valid() && keys.data != values.data && keys.g == values.g
      && keys.g.blocks == kv.cfg.maxBlocks && keys.g.slots == kv.cfg.blockTokens
      && Shaped(model, keys.g, kv.cfg.vocabulary)
    }

    ghost function Mem(): Memory
      reads keys, values, keys.data, values.data
      requires Buffers()
    {
      MemoryOf(keys.data[..], values.data[..], keys.g)
    }

    /** The committed token history of every sequence. */
    ghost function View(): map<RequestId, seq<Token>>
      reads kv
    {
      map id | id in kv.sequences :: kv.sequences[id].tokens
    }

    /** The manager's invariant, and every committed position holds the row of its own history. */
    ghost predicate Sound()
      reads keys, values, Footprint()
    {
      Buffers() && kv.Valid() && ContentOk(model, kv.State(), Mem())
    }

    /** Sound, with no append open. */
    ghost predicate Valid()
      reads keys, values, Footprint()
    {
      Sound() && kv.pending.None?
    }

    constructor (model: Model, cfg: Config, layers: nat, width: nat, reliable: bool)
      requires ConfigOk(cfg) && Shaped(model, L.Grid(cfg.maxBlocks, layers, cfg.blockTokens, width), cfg.vocabulary)
      ensures Valid() && fresh(Footprint()) && this.model == model && kv.cfg == cfg && this.reliable == reliable
      ensures kv.sequences == map[] && kv.reservations == map[]
    {
      hide StateOk, ExactPrefixCache.Valid, ExactPrefixCache.View, L.Elements, Shaped, MemoryOf;
      this.model, this.reliable := model, reliable;
      var g := L.Grid(cfg.maxBlocks, layers, cfg.blockTokens, width);
      keys := new L.KvPayload(g);
      values := new L.KvPayload(g);
      kv := new KVManager(cfg);
      new;
      EmptyContent(model, kv.State(), Mem());
    }

    /** Gathers the rows of the first `n` positions through the block table. */
    method ReadPast(table: seq<nat>, n: nat) returns (rows: seq<Payload>)
      requires Buffers() && kv.cfg.blockTokens > 0
      requires Reaches(table, n, kv.cfg.blockTokens, kv.cfg.maxBlocks)
      ensures Reads(Mem(), table, n, kv.cfg.blockTokens, rows)
    {
      var size := kv.cfg.blockTokens;
      hide Shaped, L.Elements, L.RowOf;
      rows := [];
      for t := 0 to n
        invariant Reads(Mem(), table, t, size, rows)
      {
        SlotInPage(t, size);
        var k := keys.ReadRow(table[t / size], t % size);
        var v := values.ReadRow(table[t / size], t % size);
        rows := rows + [Payload(k, v)];
      }
    }

    /** Copies the valid slots of a shared tail to its replacement, in both buffers. */
    method CopySharedTail()
      requires Sound() && kv.pending.Some? && !kv.pending.value.copied
      modifies Footprint()
      ensures Sound() && kv.pending.Some? && kv.State() == MarkCopied(old(kv.State())) && ReadyToWrite(kv.State())
    {
      hide StateOk, ContentOk, ExactPrefixCache.Valid, ExactPrefixCache.View, L.Elements, Shaped, MemoryOf, L.RowOf, SetPage, CopiedPage;
      ghost var s, k, v := kv.State(), keys.data[..], values.data[..];
      PendingKnown(s);
      if kv.pending.value.copy.Some? {
        var copy := kv.pending.value.copy.value;
        CopyReady(model, s, Mem());
        keys.CopyTail(copy.destination, copy.source, copy.validTokens);
        values.CopyTail(copy.destination, copy.source, copy.validTokens);
        TailPutMemory(k, v, keys.data[..], values.data[..], keys.g, copy);
        kv.TailCopied();
      }
    }

    /** Computes and stores the row of every new position; false when the backend failed on the way. */
    method WriteRows(tokens: seq<Token>) returns (ok: bool, logits: seq<real>)
      requires Sound() && ReadyToWrite(kv.State()) && kv.pending.value.tokens == tokens
      modifies keys.data, values.data
      ensures Sound() && (!ok ==> !reliable)
      ensures ok ==> Written(model, kv.State(), Mem(), |tokens|) && logits == Logits(model, kv.sequences[kv.pending.value.id].tokens + tokens)
    {
      hide StateOk, ContentOk, ExactPrefixCache.Valid, ExactPrefixCache.View, L.Elements, Shaped, MemoryOf, L.RowOf, Written, SetPage, AfterRow, Logits;
      ghost var s := kv.State();
      ghost var q := kv.sequences[kv.pending.value.id];
      StartWriting(model, s, Mem());
      logits := [];
      for i := 0 to |tokens|
        invariant Buffers() && ContentOk(model, s, Mem()) && Written(model, s, Mem(), i)
        invariant i == |tokens| ==> logits == Logits(model, q.tokens + tokens)
      {
        if !reliable {
          var failed: bool := *;
          if failed {
            return false, [];
          }
        }
        logits := WriteRow(tokens, i);
      }
      ok := true;
    }

    /** Position `i`: read the past through the table, compute its row and logits, store the row. */
    method WriteRow(tokens: seq<Token>, i: nat) returns (logits: seq<real>)
      requires Sound() && ReadyToWrite(kv.State()) && kv.pending.value.tokens == tokens && i < |tokens|
      requires Written(model, kv.State(), Mem(), i)
      modifies keys.data, values.data
      ensures Buffers() && ContentOk(model, kv.State(), Mem()) && Written(model, kv.State(), Mem(), i + 1)
      ensures i + 1 == |tokens| ==> logits == Logits(model, kv.sequences[kv.pending.value.id].tokens + tokens)
    {
      hide StateOk, ContentOk, ExactPrefixCache.Valid, ExactPrefixCache.View, L.Elements, MemoryOf, L.RowOf, Written, SetPage, Logits, Row, HasPlace, AfterRow, L.RowShape,
           Shaped, L.RowPut, Reads, Reaches;
      ghost var s, mem := kv.State(), Mem();
      var q, size := kv.sequences[kv.pending.value.id], kv.cfg.blockTokens;
      PastReadable(model, s, mem, i);
      var rows := ReadPast(q.blocks, q.used + i);
      PastIsHistory(model, s, mem, i, rows);
      var row := model.encode(rows, tokens[i]);
      RowShapes(model, keys.g, kv.cfg.vocabulary, rows, tokens[i]);
      logits := model.logits(rows, tokens[i]);
      WriteNext(model, s, mem, i);
      PlaceOf(model, s, mem, i);
      var b, slot := q.blocks[(q.used + i) / size], (q.used + i) % size;
      ghost var k, v := keys.data[..], values.data[..];
      keys.WriteRow(b, slot, row.key);
      values.WriteRow(b, slot, row.value);
      RowPutMemory(k, v, keys.data[..], values.data[..], keys.g, b, slot, row);
    }

    /** Appends tokens to a sequence and returns the logits after the last one, all or nothing. */
    method Append(id: RequestId, tokens: seq<Token>) returns (r: Reply<seq<real>>)
      requires Valid()
      modifies Footprint()
      ensures Valid() && kv.reservations == old(kv.reservations)
      ensures r.Thrown? ==> View() == old(View())
      ensures r.Value? ==> Appended(model, kv.cfg.vocabulary, old(View()), View(), id, tokens, r.value)
      ensures Admitted(kv.cfg, old(View()), old(kv.reservations), id, tokens) ==> r.Value? || (!reliable && r.error in {Fault, Capacity})
      ensures r == Thrown(Fault) ==> !reliable
      ensures reliable ==> (r.Value? <==> Opens(old(kv.State()), id, tokens))
      ensures r.Value? ==> id in View() && |View()[id]| <= kv.cfg.context && forall i :: 0 <= i < |tokens| ==> 0 <= tokens[i] < kv.cfg.vocabulary
      ensures r.Value? && id in kv.reservations ==> id in View() && PageCount(|View()[id]|, kv.cfg.blockTokens) <= kv.reservations[id]
      ensures EvictsLeast(old(kv.State()), kv.prefix.View(), id, tokens)
    {
      hide StateOk, ContentOk, ExactPrefixCache.Valid, ExactPrefixCache.View, Shaped, MemoryOf, Histories, L.Elements, Logits, Written,
           KvSpec.PrepareAppend, Commit, KvSpec.Rollback, Admitted, View, MarkCopied, ReadyToWrite, EvictsLeast;
      ghost var s := kv.State();
      EvictsLittle(s, id, tokens);
      SeenHistories();
      PrepareView(s, id, tokens);
      PrepareAppendContent(model, s, Mem(), id, tokens);
      AdmittedOpens(s, id, tokens);
      OpensWithin(s, id, tokens);
      var prepared := kv.PrepareAppend(id, tokens);
      if prepared.Thrown? {
        SeenHistories();
        return Thrown(prepared.error);
      }
      MarkView(kv.State());
      ghost var cache := kv.prefix.View();
      CopySharedTail();
      assert kv.prefix.View() == cache;
      var ok, logits := WriteRows(tokens);
      ghost var t := kv.State();
      if !ok {
        RollbackSafe(model, t, Mem());
        SameCache(t);
        kv.RollbackAppend();
        assert kv.prefix.View() == cache;
        SeenHistories();
        var bounded: bool := *;
        return Thrown(if bounded then Capacity else Fault);
      }
      CommitSafe(model, t, Mem());
      LogitsSize(model, keys.g, kv.cfg.vocabulary, t.sequences[id].tokens + tokens);
      SameCache(t);
      var committed := kv.CommitAppend();
      assert kv.prefix.View() == cache;
      SeenHistories();
      return Value(logits);
    }

    /** Every nonempty history has one logit per token. */
    lemma LogitsKnown()
      requires Valid()
      ensures forall h: seq<Token> :: h != [] ==> |Logits(model, h)| == kv.cfg.vocabulary
    {
      hide StateOk, ContentOk, ExactPrefixCache.Valid, ExactPrefixCache.View, Shaped, MemoryOf, L.Elements, Logits;
      forall h: seq<Token> | h != [] ensures |Logits(model, h)| == kv.cfg.vocabulary {
        LogitsSize(model, keys.g, kv.cfg.vocabulary, h);
      }
    }

    lemma SeenHistories()
      ensures View() == Histories(kv.State()) && View().Keys == kv.sequences.Keys
      ensures forall id :: id in kv.sequences ==> View()[id] == kv.sequences[id].tokens
    {
    }

    /** Reserves worst-case pages; with nothing else committed it never has to wait. */
    method ReserveRequest(id: RequestId, maxTokens: nat) returns (r: Reply<Admission>)
      requires Valid()
      modifies Footprint()
      ensures Valid() && View() == old(View())
      ensures kv.reservations == if r == Value(Ready) then old(kv.reservations)[id := PageCount(maxTokens, kv.cfg.blockTokens)] else old(kv.reservations)
      ensures r.Thrown? <==> id in View() || id in old(kv.reservations) || maxTokens == 0 || maxTokens > kv.cfg.context
      ensures r == Value(Impossible) <==> r.Value? && PageCount(maxTokens, kv.cfg.blockTokens) > kv.cfg.maxBlocks
      ensures r == Value(Wait) ==> View().Keys + old(kv.reservations).Keys != {}
      ensures kv.prefix.View() == old(kv.prefix.View())
      ensures View().Keys <= old(kv.reservations).Keys ==>
        (r == Value(Wait) <==>
           var pages := PageCount(maxTokens, kv.cfg.blockTokens);
           r.Value? && pages <= kv.cfg.maxBlocks && Total(old(kv.reservations)) + pages > kv.cfg.maxBlocks)
      ensures r == Value(Wait) <==>
        var pages := PageCount(maxTokens, kv.cfg.blockTokens);
        r.Value? && pages <= kv.cfg.maxBlocks && Total(Promises(View(), old(kv.reservations), kv.cfg.blockTokens)) + pages > kv.cfg.maxBlocks
    {
      hide StateOk, ContentOk, ExactPrefixCache.Valid, ExactPrefixCache.View, Shaped, MemoryOf, L.Elements, KvSpec.ReserveRequest, PageCount, View, Promises;
      ghost var s := kv.State();
      ReserveView(model, s, Mem(), id, maxTokens);
      SeenHistories();
      PromisedPages(s);
      r := kv.ReserveRequest(id, maxTokens);
      SeenHistories();
    }

    method ReleaseReservation(id: RequestId)
      requires Valid()
      modifies Footprint()
      ensures Valid() && View() == old(View()) && kv.reservations == old(kv.reservations) - {id}
      ensures kv.prefix.View() == old(kv.prefix.View())
    {
      hide StateOk, ContentOk, ExactPrefixCache.Valid, ExactPrefixCache.View, Shaped, MemoryOf, L.Elements, View;
      ContentIgnoresReservations(model, kv.State(), Mem(), kv.reservations - {id});
      SeenHistories();
      kv.ReleaseReservation(id);
      SeenHistories();
    }

    method Create(id: RequestId) returns (r: Reply<()>)
      requires Valid()
      modifies Footprint()
      ensures Valid() && kv.reservations == old(kv.reservations)
      ensures r.Value? <==> id !in old(View())
      ensures View() == if r.Value? then old(View())[id := []] else old(View())
      ensures kv.prefix.View() == old(kv.prefix.View())
    {
      hide StateOk, ContentOk, ExactPrefixCache.Valid, ExactPrefixCache.View, Shaped, MemoryOf, L.Elements, KvSpec.Create, View;
      ghost var s := kv.State();
      CreateContent(model, s, Mem(), id);
      CreateView(s, id);
      SeenHistories();
      r := kv.Create(id);
      SeenHistories();
    }

    /** Adopts the longest cached prefix, never the whole prompt, and refreshes it; a request within its reservation is
        never refused. */
    method ReusePrefix(id: RequestId, prompt: seq<Token>) returns (r: Reply<nat>)
      requires Valid()
      modifies Footprint()
      ensures Valid() && kv.reservations == old(kv.reservations)
      ensures r.Thrown? ==> View() == old(View()) && r.error != Fault
      ensures r.Value? ==> id in old(View()) && r.value < |prompt| && View() == old(View())[id := prompt[..r.value]]
      ensures r.Value? ==> r.value == CachedPrefix(kv.cfg, old(kv.prefix.View()).entries.Keys, prompt)
      ensures r.Value? && kv.cfg.cacheBlocks > 0 ==>
        var c := old(kv.prefix.View());
        var path := Lookup(c.entries.Keys, prompt, 0, kv.cfg.blockTokens).path;
        kv.prefix.View() == Flat(c.entries, Keeping(c.lru, path) + path)
      ensures Admitted(kv.cfg, old(View()), old(kv.reservations), id, prompt) && old(View())[id] == [] ==> r.Value?
    {
      hide StateOk, ContentOk, ExactPrefixCache.Valid, ExactPrefixCache.View, Shaped, MemoryOf, L.Elements, KvSpec.ReusePrefix, View, Histories, Admitted;
      ghost var s := kv.State();
      ReusePrefixContent(model, s, Mem(), id, prompt);
      ReuseView(s, id, prompt);
      AdmittedReuses(s, id, prompt);
      if s.cfg.cacheBlocks > 0 && KvSpec.ReusePrefix(s, id, prompt).reply.Value? {
        ReuseRefreshes(s, id, prompt);
      }
      SeenHistories();
      r := kv.ReusePrefix(id, prompt);
      SeenHistories();
    }

    /** An empty sequence takes over the history of another; no payload moves. */
    method ForkSequence(source: RequestId, target: RequestId) returns (r: Reply<()>)
      requires Valid()
      modifies Footprint()
      ensures Valid() && kv.reservations == old(kv.reservations)
      ensures r.Thrown? ==> View() == old(View())
      ensures r.Value? ==>
        && source != target && source in old(View()) && target in old(View()) && old(View())[target] == []
        && View() == old(View())[target := old(View())[source]]
      ensures r.Value? <==> CanFork(old(kv.State()), source, target)
      ensures kv.prefix.View() == old(kv.prefix.View())
    {
      hide StateOk, ContentOk, ExactPrefixCache.Valid, ExactPrefixCache.View, Shaped, MemoryOf, L.Elements, Fork, CanFork, View, Histories;
      ghost var s := kv.State();
      ForkContent(model, s, Mem(), source, target);
      ForkView(s, source, target);
      ForkAllowed(s, source, target);
      SeenHistories();
      r := kv.ForkSequence(source, target);
      SeenHistories();
    }

    method CachePrefix(id: RequestId) returns (r: Reply<()>)
      requires Valid()
      modifies Footprint()
      ensures Valid() && View() == old(View()) && kv.reservations == old(kv.reservations) && (r.Value? <==> id in View())
      ensures r.Thrown? ==> r.error != Capacity
      ensures r.Value? ==> Cached(kv.cfg, kv.prefix.View().entries.Keys, View()[id])
      ensures r.Value? ==> KeepsRecent(kv.cfg, old(kv.prefix.View()).lru, kv.prefix.View().lru, View()[id])
    {
      hide StateOk, ContentOk, ExactPrefixCache.Valid, ExactPrefixCache.View, Shaped, MemoryOf, L.Elements, KvSpec.CachePrefix, View, Histories, KeepsRecent, Cached;
      ghost var s := kv.State();
      CacheSafe(model, s, Mem(), id);
      if id in s.sequences {
        PublishedOrder(s, id);
      }
      SeenHistories();
      r := kv.CachePrefix(id);
      SeenHistories();
    }

    /** Drops every cache lease; no history and no committed row changes. */
    method ClearPrefixCache() returns (r: Reply<()>)
      requires Valid()
      modifies Footprint()
      ensures Valid() && r == Value(()) && View() == old(View()) && kv.reservations == old(kv.reservations)
      ensures kv.prefix.View() == Flat(map[], [])
    {
      hide StateOk, ContentOk, ExactPrefixCache.Valid, ExactPrefixCache.View, Shaped, MemoryOf, L.Elements, View, Histories;
      ghost var s := kv.State();
      SeenHistories();
      r := kv.ClearPrefixCache();
      ClearCacheContent(model, s, Mem(), kv.pool.View());
      assert kv.State() == s.(pool := kv.pool.View(), cache := Flat(map[], []));
      SeenHistories();
    }

    /** Empties a sequence but keeps it and its reservation. */
    method ResetSequence(id: RequestId) returns (r: Reply<()>)
      requires Valid()
      modifies Footprint()
      ensures Valid() && kv.reservations == old(kv.reservations) && kv.prefix.View() == old(kv.prefix.View())
      ensures r.Value? <==> id in old(View())
      ensures View() == if r.Value? then old(View())[id := []] else old(View())
    {
      hide StateOk, ContentOk, ExactPrefixCache.Valid, ExactPrefixCache.View, Shaped, MemoryOf, L.Elements, Reset, View;
      ghost var s := kv.State();
      ResetContent(model, s, Mem(), id);
      ResetView(s, id);
      SeenHistories();
      r := kv.ResetSequence(id);
      SeenHistories();
    }

    /** Gives back the pages and the reservation of a sequence; a failing backend changes nothing. */
    method Release(id: RequestId) returns (r: Reply<()>)
      requires Valid()
      modifies Footprint()
      ensures Valid() && (r.Value? ==> id in old(View()) && View() == old(View()) - {id} && kv.reservations == old(kv.reservations) - {id})
      ensures r.Thrown? ==> View() == old(View()) && kv.reservations == old(kv.reservations) && r.error != Capacity
      ensures id in old(View()) ==> r.Value? || r == Thrown(Fault)
      ensures r == Thrown(Fault) ==> !reliable
      ensures kv.prefix.View() == old(kv.prefix.View())
    {
      hide StateOk, ContentOk, ExactPrefixCache.Valid, ExactPrefixCache.View, Shaped, MemoryOf, L.Elements, KvSpec.Release, View, Histories;
      if !reliable {
        var failed: bool := *;
        if failed {
          return Thrown(Fault);
        }
      }
      ghost var s := kv.State();
      ReleaseContent(model, s, Mem(), id);
      ReleaseView(s, id);
      SeenHistories();
      r := kv.ReleaseSequence(id);
      SeenHistories();
    }

    /** Gives back everything; a failing backend changes nothing. */
    method Clear() returns (r: Reply<()>)
      requires Valid()
      modifies Footprint()
      ensures Valid() && (r.Value? ==> View() == map[] && kv.reservations == map[] && |kv.pool.free| == kv.cfg.maxBlocks)
      ensures r.Thrown? ==> View() == old(View()) && kv.reservations == old(kv.reservations) && !reliable
    {
      hide StateOk, ContentOk, ExactPrefixCache.Valid, ExactPrefixCache.View, Shaped, MemoryOf, L.Elements, Cleared;
      if !reliable {
        var failed: bool := *;
        if failed {
          return Thrown(Fault);
        }
      }
      ghost var s := kv.State();
      r := kv.Clear();
      ClearView(model, s, kv.State(), Mem());
    }
  }

  lemma MarkView(s: KvState)
    requires s.pending.Some? && s.pending.value.id in s.sequences
    ensures var t := MarkCopied(s);
      && Histories(t) == Histories(s) && t.reservations == s.reservations && t.cfg == s.cfg && t.sequences == s.sequences
      && t.pending.Some? && t.pending.value.id == s.pending.value.id && t.pending.value.tokens == s.pending.value.tokens && t.cache == s.cache
  {
  }

  /** The manager accepts the append. */
  ghost predicate Opens(s: KvState, id: RequestId, tokens: seq<Token>) {
    ConfigOk(s.cfg) && PrepareAppend(s, id, tokens).reply.Value?
  }

  /** An accepted append stays within the context, the vocabulary and its reservation. */
  lemma OpensWithin(s: KvState, id: RequestId, tokens: seq<Token>)
    requires ConfigOk(s.cfg) && StateOk(s)
    ensures PrepareAppend(s, id, tokens).reply.Value? ==>
      && s.pending.None? && id in s.sequences && tokens != [] && |s.sequences[id].tokens| + |tokens| <= s.cfg.context
      && (forall i :: 0 <= i < |tokens| ==> 0 <= tokens[i] < s.cfg.vocabulary)
      && (id in s.reservations ==> PageCount(|s.sequences[id].tokens| + |tokens|, s.cfg.blockTokens) <= s.reservations[id])
  {
    hide StateOk, PageCount, MakeRoom, Open, Required, Tail, NeedsCopy, Committed, SequenceOk;
    if s.pending.None? && id in s.sequences {
      SequenceKnown(s, id);
      UsedIsLength(s.cfg, s.sequences[id]);
    }
  }

  lemma UsedIsLength(cfg: Config, q: PagedSequence)
    requires ConfigOk(cfg) && SequenceOk(cfg, q)
    ensures q.used == |q.tokens|
  {
  }

  /** The oldest keys went, and only as many as were needed for room; the others keep their order and pages. */
  ghost predicate EvictsLeast(s: KvState, after: Flat, id: RequestId, tokens: seq<Token>) {
    exists n: nat ::
      && CacheShrunk(s.cache, after, n)
      && (n > 0 ==> s.cfg.blockTokens > 0 && id in s.sequences && forall m: nat :: m < n ==> !RoomAfter(s, id, tokens, m))
  }

  lemma EvictsLittle(s: KvState, id: RequestId, tokens: seq<Token>)
    requires ConfigOk(s.cfg) && StateOk(s)
    ensures EvictsLeast(s, PrepareAppend(s, id, tokens).state.cache, id, tokens)
  {
    hide StateOk, PrepareAppend, CacheShrunk, RoomAfter;
    var n := AppendEvicts(s, id, tokens);
  }

  lemma SameCache(s: KvState)
    requires s.pending.Some? && s.pending.value.id in s.sequences
    ensures s.pending.value.original <= |s.sequences[s.pending.value.id].blocks| ==> Rollback(s).cache == s.cache
    ensures Commit(s).state.cache == s.cache
  {
    hide UnrefAll, Unref, OriginalTable;
  }

  lemma ReserveView(m: Model, s: KvState, mem: Memory, id: RequestId, maxTokens: nat)
    requires ConfigOk(s.cfg) && s.pending.None? && ContentOk(m, s, mem)
    ensures var o, pages := ReserveRequest(s, id, maxTokens), PageCount(maxTokens, s.cfg.blockTokens);
      && o.state == s.(reservations := if o.reply == Value(Ready) then s.reservations[id := pages] else s.reservations)
      && ContentOk(m, o.state, mem) && Histories(o.state) == Histories(s)
      && (o.reply.Thrown? <==> id in s.sequences || id in s.reservations || maxTokens == 0 || maxTokens > s.cfg.context)
      && (o.reply == Value(Impossible) <==> o.reply.Value? && pages > s.cfg.maxBlocks)
      && (o.reply == Value(Wait) ==> s.sequences.Keys + s.reservations.Keys != {})
      && (s.sequences.Keys <= s.reservations.Keys ==>
            (o.reply == Value(Wait) <==> o.reply.Value? && pages <= s.cfg.maxBlocks && Total(s.reservations) + pages > s.cfg.maxBlocks))
      && (o.reply == Value(Wait) <==> o.reply.Value? && pages <= s.cfg.maxBlocks && Committed(s) + pages > s.cfg.maxBlocks)
  {
    if maxTokens > 0 {
      WorstCasePages(maxTokens, s.cfg.blockTokens);
    }
    hide PageCount;
    ContentIgnoresReservations(m, s, mem, ReserveRequest(s, id, maxTokens).state.reservations);
    hide ContentOk;
    NothingCommitted(s);
    OnlyReservations(s);
    hide Committed;
  }

  /** Who has a reservation counts with it, everybody else with the pages of the history. */
  ghost function Promises(held: map<RequestId, seq<Token>>, reservations: map<RequestId, nat>, size: nat): (r: map<RequestId, nat>)
    requires size > 0
    ensures r.Keys == held.Keys + reservations.Keys
    ensures forall x :: x in reservations ==> r[x] == reservations[x]
    ensures forall x :: x in held && x !in reservations ==> r[x] == PageCount(|held[x]|, size)
  {
    map x | x in reservations.Keys + held.Keys :: if x in reservations then reservations[x] else PageCount(|held[x]|, size)
  }

  lemma PromisedPages(s: KvState)
    requires ConfigOk(s.cfg) && s.pending.None? && StateOk(s)
    ensures Committed(s) == Total(Promises(Histories(s), s.reservations, s.cfg.blockTokens))
  {
    hide StateOk, PageCount;
    var held := Histories(s);
    forall x | x in s.sequences ensures |s.sequences[x].blocks| == PageCount(|held[x]|, s.cfg.blockTokens) {
      SequenceKnown(s, x);
    }
    assert Commitments(s.sequences, s.reservations) == Promises(held, s.reservations, s.cfg.blockTokens);
  }

  lemma NothingCommitted(s: KvState)
    ensures s.sequences.Keys + s.reservations.Keys == {} ==> Committed(s) == 0
  {
    if s.sequences.Keys + s.reservations.Keys == {} {
      assert Commitments(s.sequences, s.reservations) == map[];
    }
  }

  lemma OnlyReservations(s: KvState)
    ensures s.sequences.Keys <= s.reservations.Keys ==> Committed(s) == Total(s.reservations)
  {
    if s.sequences.Keys <= s.reservations.Keys {
      assert Commitments(s.sequences, s.reservations) == s.reservations;
    }
  }

  lemma WorstCasePages(n: nat, size: nat)
    requires n > 0 && size > 0
    ensures 1 + (n - 1) / size == PageCount(n, size)
  {
    DivisionBounds(n - 1, size);
    MulMonotone((n - 1) / size, (n - 1) / size, size);
    PageCountUnique(n, size, 1 + (n - 1) / size);
  }

  lemma ContentIgnoresReservations(m: Model, s: KvState, mem: Memory, r: map<RequestId, nat>)
    requires ConfigOk(s.cfg) && ContentOk(m, s, mem)
    ensures ContentOk(m, s.(reservations := r), mem) && Histories(s.(reservations := r)) == Histories(s)
  {
    var t := s.(reservations := r);
    assert forall id :: id in s.sequences ==> CommittedTable(t, id) == CommittedTable(s, id);
    hide TableHolds, CacheHolds, OriginalTable;
  }

  lemma CreateView(s: KvState, id: RequestId)
    requires s.pending.None?
    ensures var o := Create(s, id);
      && o.state.cfg == s.cfg && o.state.pending.None? && o.state.reservations == s.reservations && (o.reply.Value? <==> id !in s.sequences)
      && Histories(o.state) == (if o.reply.Value? then Histories(s)[id := []] else Histories(s)) && o.state.cache == s.cache
  {
  }

  lemma ForkView(s: KvState, source: RequestId, target: RequestId)
    requires s.pending.None?
    ensures var o := Fork(s, source, target);
      && o.state.cfg == s.cfg && o.state.pending.None? && o.state.reservations == s.reservations && o.state.cache == s.cache
      && (o.reply.Thrown? ==> Histories(o.state) == Histories(s))
      && (o.reply.Value? ==>
            && source != target && source in s.sequences && target in s.sequences && s.sequences[target].tokens == []
            && Histories(o.state) == Histories(s)[target := s.sequences[source].tokens])
  {
    hide Committed, RetainAll;
  }

  /** A fork goes through when the target is another, empty sequence and its pages fit the target's reservation, or, for
      an unreserved target, the pool beside everything promised. */
  ghost predicate CanFork(s: KvState, source: RequestId, target: RequestId) {
    && source != target && source in s.sequences && target in s.sequences && s.sequences[target].tokens == [] && s.cfg.blockTokens > 0
    && var pages := PageCount(|s.sequences[source].tokens|, s.cfg.blockTokens);
    && if target in s.reservations then pages <= s.reservations[target] else Committed(s) + pages <= s.cfg.maxBlocks
  }

  /** Exactly then: a table has exactly the pages its tokens need, and an empty history holds none. */
  lemma ForkAllowed(s: KvState, source: RequestId, target: RequestId)
    requires ConfigOk(s.cfg) && s.pending.None? && StateOk(s)
    ensures Fork(s, source, target).reply.Value? <==> CanFork(s, source, target)
  {
    if source in s.sequences && target in s.sequences {
      assert SequenceOk(s.cfg, s.sequences[source]) && SequenceOk(s.cfg, s.sequences[target]);
      if s.sequences[target].tokens == [] {
        PageCountBounds(0, s.cfg.blockTokens);
      }
    }
    hide StateOk, PageCount, Committed, RetainAll;
  }

  lemma ResetView(s: KvState, id: RequestId)
    requires s.pending.None?
    ensures var o := Reset(s, id);
      && o.state.cfg == s.cfg && o.state.pending.None? && o.state.reservations == s.reservations && (o.reply.Value? <==> id in s.sequences)
      && Histories(o.state) == (if o.reply.Value? then Histories(s)[id := []] else Histories(s)) && o.state.cache == s.cache
  {
    hide UnrefAll;
  }

  lemma ReleaseView(s: KvState, id: RequestId)
    requires s.pending.None?
    ensures var o := Release(s, id);
      && o.state.cfg == s.cfg && o.state.pending.None? && (o.reply.Value? <==> id in s.sequences)
      && Histories(o.state) == (if o.reply.Value? then Histories(s) - {id} else Histories(s))
      && o.state.reservations == (if o.reply.Value? then s.reservations - {id} else s.reservations)
      && (o.reply.Thrown? ==> o.reply.error == Invalid) && o.state.cache == s.cache
  {
    hide UnrefAll;
  }

  lemma ClearView(m: Model, s: KvState, t: KvState, mem: Memory)
    requires ConfigOk(s.cfg) && Cleared(s, t) && MemoryShape(s.cfg, mem) && StateOk(s)
    ensures t.cfg == s.cfg && ContentOk(m, t, mem) && t.pending.None? && |t.pool.free| == t.cfg.maxBlocks
    ensures t.sequences == map[] && t.reservations == map[]
  {
    ClearedOk(s, t);
    EmptyContent(m, t, mem);
    hide StateOk, ContentOk;
  }

  lemma CacheSafe(m: Model, s: KvState, mem: Memory, id: RequestId)
    requires ConfigOk(s.cfg) && s.pending.None? && ContentOk(m, s, mem) && StateOk(s)
    ensures var o := CachePrefix(s, id);
      && o.state.cfg == s.cfg && ContentOk(m, o.state, mem) && o.state.pending.None? && o.state.reservations == s.reservations
      && Histories(o.state) == Histories(s) && (o.reply.Value? <==> id in s.sequences) && (o.reply.Thrown? ==> o.reply.error != Capacity)
      && (o.reply.Value? ==> Cached(s.cfg, o.state.cache.entries.Keys, s.sequences[id].tokens))
  {
    CachePrefixContent(m, s, mem, id);
    if id in s.sequences {
      SequenceKnown(s, id);
      PublishedPages(s, id);
    }
    hide StateOk, ContentOk, Publish, PageCount, Cached;
  }

  /** The pages of the history, as many as the cache may hold, are the newest; of the other keys the newest that still fit
      are kept, in their order. */
  ghost predicate KeepsRecent(cfg: Config, before: seq<Key>, after: seq<Key>, h: seq<Token>) {
    && cfg.blockTokens > 0
    && var pages := PageCount(|h|, cfg.blockTokens);
    var n := if pages < cfg.cacheBlocks then pages else cfg.cacheBlocks;
    Published(before, after, PathKeys(h, cfg.blockTokens, n), cfg.cacheBlocks)
  }

  /** The whole table is published, as far as the cache may hold it. */
  lemma PublishedOrder(s: KvState, id: RequestId)
    requires ConfigOk(s.cfg) && s.pending.None? && StateOk(s) && id in s.sequences
    ensures CachePrefix(s, id).reply.Value? ==> KeepsRecent(s.cfg, s.cache.lru, CachePrefix(s, id).state.cache.lru, s.sequences[id].tokens)
  {
    hide StateOk, Published, PathKeys, PageCount, CachePrefix;
    SequenceKnown(s, id);
    if CachePrefix(s, id).reply.Value? {
      PublicationOrder(s, id);
    }
  }

  /** Every page of the history, as far as the cache may hold them, is leased under its own name. */
  ghost predicate Cached(cfg: Config, keys: set<Key>, h: seq<Token>) {
    cfg.blockTokens > 0 ==>
      forall j :: 0 <= j < PageCount(|h|, cfg.blockTokens) && j < cfg.cacheBlocks ==> PageKey(h, j, cfg.blockTokens) in keys
  }

  lemma PublishedPages(s: KvState, id: RequestId)
    requires ConfigOk(s.cfg) && s.pending.None? && id in s.sequences && StateOk(s)
    ensures CachePrefix(s, id).reply.Value? ==> Cached(s.cfg, CachePrefix(s, id).state.cache.entries.Keys, s.sequences[id].tokens)
  {
    hide StateOk, Counts, PageKey, PublishPages, PathKeys, Newest, NoDuplicates;
    SequenceKnown(s, id);
    StockOfOk(s);
    TableHeld(s, id);
    var q, size := s.sequences[id], s.cfg.blockTokens;
    var n := PublishCount(q.tokens, q.blocks, size, s.cfg.cacheBlocks);
    PublishPagesOk(StockOf(s), s.cfg.cacheBlocks, size, Owned(s), q.tokens, q.blocks, n);
    NewestLeased(PublishPages(StockOf(s), s.cfg.cacheBlocks, size, q.tokens, q.blocks, n).cache, s.cfg.cacheBlocks, q.tokens, size, n);
  }

  lemma ReuseView(s: KvState, id: RequestId, prompt: seq<Token>)
    requires ConfigOk(s.cfg) && s.pending.None? && StateOk(s)
    ensures var o := ReusePrefix(s, id, prompt);
      && o.state.cfg == s.cfg && o.state.pending.None? && o.state.reservations == s.reservations
      && (o.reply.Thrown? ==> Histories(o.state) == Histories(s) && o.reply.error != Fault)
      && (o.reply.Value? ==> id in s.sequences && o.reply.value < |prompt| && Histories(o.state) == Histories(s)[id := prompt[..o.reply.value]])
      && (o.reply.Value? ==> o.reply.value == CachedPrefix(s.cfg, s.cache.entries.Keys, prompt))
  {
    hide StateOk, Committed, ValidTokens, CachedPrefix;
    if id in s.sequences && prompt != [] && s.sequences[id] == EmptySequence {
      AdoptFrame(s, id, prompt);
      AdoptShape(s, id, prompt);
      hide Adopt;
      DropHistory(s, Adopt(s, id, prompt), id);
      hide Drop;
    }
  }

  /** Length of the longest cached prefix of a prompt, its last token excepted. */
  ghost function CachedPrefix(cfg: Config, keys: set<Key>, prompt: seq<Token>): nat {
    if cfg.cacheBlocks == 0 || cfg.blockTokens == 0 then 0 else Lookup(keys, prompt, 0, cfg.blockTokens).length
  }

  lemma AdoptShape(s: KvState, id: RequestId, prompt: seq<Token>)
    requires ConfigOk(s.cfg) && prompt != [] && id in s.sequences && s.sequences[id] == EmptySequence
    ensures var t := Adopt(s, id, prompt);
      && id in t.sequences && t.sequences[id].used < |prompt| && t.sequences[id].tokens == prompt[..t.sequences[id].used]
      && t.sequences[id].used == CachedPrefix(s.cfg, s.cache.entries.Keys, prompt)
  {
    LookupAtLeast(s.cache.entries.Keys, prompt, 0, s.cfg.blockTokens);
    hide Lookup, FoundBlocks, RetainAll, TouchAll;
  }

  lemma DropHistory(s: KvState, t: KvState, id: RequestId)
    requires id in s.sequences && s.sequences[id] == EmptySequence && id in t.sequences && t.sequences == s.sequences[id := t.sequences[id]]
    ensures Histories(Drop(t, id)) == Histories(s) && Drop(t, id).cfg == t.cfg && Drop(t, id).pending == t.pending && Drop(t, id).reservations == t.reservations
    ensures Histories(t) == Histories(s)[id := t.sequences[id].tokens]
  {
    hide UnrefAll;
  }

  /** Reuse cannot exceed a reservation that covers the whole prompt. */
  lemma AdmittedReuses(s: KvState, id: RequestId, prompt: seq<Token>)
    requires ConfigOk(s.cfg) && s.pending.None? && StateOk(s)
    ensures Admitted(s.cfg, Histories(s), s.reservations, id, prompt) && Histories(s)[id] == [] ==> ReusePrefix(s, id, prompt).reply.Value?
  {
    hide StateOk, Adopt, PageCount, Committed, ValidTokens, ReusePrefix, SequenceOk;
    if Admitted(s.cfg, Histories(s), s.reservations, id, prompt) && Histories(s)[id] == [] {
      SequenceKnown(s, id);
      NoTokensNoPages(s.cfg, s.sequences[id]);
      AdoptFrame(s, id, prompt);
      AdoptedPages(s, id, prompt);
      CommittedAdopted(s, id, prompt);
      PromisesFit(s);
      ReuseSucceeds(s, id, prompt);
    }
  }

  lemma PromisesFit(s: KvState)
    requires StateOk(s)
    ensures s.reservations.Keys != {} ==> Committed(s) <= s.cfg.maxBlocks
  {
    hide MetaOk, Committed;
  }

  lemma ReuseSucceeds(s: KvState, id: RequestId, prompt: seq<Token>)
    requires ConfigOk(s.cfg) && s.pending.None? && id in s.sequences && s.sequences[id] == EmptySequence
    requires prompt != [] && |prompt| <= s.cfg.context && ValidTokens(prompt, s.cfg.vocabulary)
    requires var t := Adopt(s, id, prompt);
      && id in t.sequences && t.cfg == s.cfg && id in t.reservations
      && |t.sequences[id].blocks| <= t.reservations[id] && Committed(t) <= t.cfg.maxBlocks
    ensures ReusePrefix(s, id, prompt).reply.Value?
  {
    hide Adopt, Committed, ValidTokens;
  }

  lemma NoTokensNoPages(cfg: Config, q: PagedSequence)
    requires ConfigOk(cfg) && SequenceOk(cfg, q) && q.tokens == []
    ensures q == EmptySequence
  {
    PageCountBounds(0, cfg.blockTokens);
  }

  lemma AdoptedPages(s: KvState, id: RequestId, prompt: seq<Token>)
    requires ConfigOk(s.cfg) && s.pending.None? && id in s.sequences && s.sequences[id] == EmptySequence && prompt != [] && |prompt| <= s.cfg.context && StateOk(s)
    ensures id in Adopt(s, id, prompt).sequences && |Adopt(s, id, prompt).sequences[id].blocks| <= PageCount(|prompt|, s.cfg.blockTokens)
  {
    AdoptedSequence(s, prompt);
    LookupAtLeast(s.cache.entries.Keys, prompt, 0, s.cfg.blockTokens);
    hide StateOk, Lookup, FoundBlocks, RetainAll, TouchAll, PageCount;
    PageCountMonotone(Lookup(s.cache.entries.Keys, prompt, 0, s.cfg.blockTokens).length, |prompt|, s.cfg.blockTokens);
    PageCountMonotone(0, |prompt|, s.cfg.blockTokens);
  }

  lemma CommittedAdopted(s: KvState, id: RequestId, prompt: seq<Token>)
    requires ConfigOk(s.cfg) && id in s.sequences && id in s.reservations && prompt != []
    ensures Committed(Adopt(s, id, prompt)) == Committed(s)
  {
    AdoptFrame(s, id, prompt);
    CommittedSetTable(s.sequences, s.reservations, id, Adopt(s, id, prompt).sequences[id]);
    hide Adopt, Commitments;
  }

  lemma PendingKnown(s: KvState)
    requires ConfigOk(s.cfg) && s.pending.Some? && StateOk(s)
    ensures s.pending.value.id in s.sequences
  {
    PendingIsKnown(s);
  }

  lemma CopyReady(m: Model, s: KvState, mem: Memory)
    requires ConfigOk(s.cfg) && s.pending.Some? && s.pending.value.copy.Some? && !s.pending.value.copied && ContentOk(m, s, mem) && StateOk(s)
    ensures var copy := s.pending.value.copy.value;
      && copy.source < |mem| == s.cfg.maxBlocks && copy.destination < |mem| && copy.validTokens <= s.cfg.blockTokens
      && |mem[copy.source]| == |mem[copy.destination]| == s.cfg.blockTokens
      && ContentOk(m, MarkCopied(s), SetPage(mem, copy.destination, CopiedPage(mem, copy)))
  {
    CopyInRange(m, s, mem);
    CopyKeepsContent(m, s, mem);
    assert MemoryShape(s.cfg, mem);
    hide StateOk, ContentOk;
  }

  lemma StartWriting(m: Model, s: KvState, mem: Memory)
    requires ConfigOk(s.cfg) && ReadyToWrite(s) && ContentOk(m, s, mem) && StateOk(s)
    ensures Written(m, s, mem, 0) && s.pending.value.tokens != []
  {
    PendingNumbers(s);
    hide StateOk, TableHolds;
    var p := s.pending.value;
    assert s.sequences[p.id].tokens + p.tokens[..0] == s.sequences[p.id].tokens;
  }

  lemma PastReadable(m: Model, s: KvState, mem: Memory, i: nat)
    requires ConfigOk(s.cfg) && ReadyToWrite(s) && Written(m, s, mem, i) && ContentOk(m, s, mem) && StateOk(s)
    ensures Reaches(s.sequences[s.pending.value.id].blocks, s.sequences[s.pending.value.id].used + i, s.cfg.blockTokens, s.cfg.maxBlocks)
  {
    PendingNumbers(s);
    hide StateOk, TableHolds;
    var p := s.pending.value;
    ReadBack(m, s.cfg.blockTokens, mem, s.sequences[p.id].blocks, s.sequences[p.id].tokens + p.tokens[..i]);
  }

  /** What the append reads is exactly the causal past of the position. */
  lemma PastIsHistory(m: Model, s: KvState, mem: Memory, i: nat, rows: seq<Payload>)
    requires ConfigOk(s.cfg) && ReadyToWrite(s) && Written(m, s, mem, i) && i < |s.pending.value.tokens| && StateOk(s)
    requires Reads(mem, s.sequences[s.pending.value.id].blocks, s.sequences[s.pending.value.id].used + i, s.cfg.blockTokens, rows)
    ensures var p := s.pending.value;
      var h := s.sequences[p.id].tokens + p.tokens[..i];
      && rows == History(m, h) && m.encode(rows, p.tokens[i]) == Row(m, h + [p.tokens[i]])
      && (i + 1 == |p.tokens| ==> m.logits(rows, p.tokens[i]) == Logits(m, s.sequences[p.id].tokens + p.tokens))
  {
    PendingNumbers(s);
    hide StateOk, TableHolds, Reads, History, Row, Logits;
    var p := s.pending.value;
    var q := s.sequences[p.id];
    var h, t := q.tokens + p.tokens[..i], p.tokens[i];
    RowsAre(m, s.cfg.blockTokens, mem, q.blocks, h, rows);
    NextRow(m, h, t);
    if i + 1 == |p.tokens| {
      assert h + [t] == q.tokens + p.tokens;
    }
  }

  lemma RowsAre(m: Model, size: nat, mem: Memory, table: seq<nat>, h: seq<Token>, rows: seq<Payload>)
    requires size > 0 && TableHolds(m, size, mem, table, h) && Reads(mem, table, |h|, size, rows)
    ensures rows == History(m, h)
  {
    hide TableHolds, History;
    forall x | 0 <= x < |rows| ensures rows[x] == History(m, h)[x] {
      assert ReadsAt(mem, table, size, x, rows[x]);
      ReadOne(m, size, mem, table, h, x);
    }
  }

  lemma NextRow(m: Model, h: seq<Token>, t: Token)
    ensures m.encode(History(m, h), t) == Row(m, h + [t]) && m.logits(History(m, h), t) == Logits(m, h + [t])
  {
    hide History;
    assert (h + [t])[..|h|] == h;
  }

  lemma PlaceOf(m: Model, s: KvState, mem: Memory, i: nat)
    requires ConfigOk(s.cfg) && ReadyToWrite(s) && HasPlace(s, mem, i) && i < |s.pending.value.tokens|
    ensures var p, size := s.pending.value, s.cfg.blockTokens;
      var q := s.sequences[p.id];
      var j, slot := (q.used + i) / size, (q.used + i) % size;
      && j < |q.blocks| && q.blocks[j] < |mem| && slot < size == |mem[q.blocks[j]]|
      && AfterRow(m, s, mem, i) ==
        SetPage(mem, q.blocks[j], mem[q.blocks[j]][slot := Row(m, q.tokens + p.tokens[..i] + [p.tokens[i]])])
  {
    hide SetPage, Row;
  }

  lemma RollbackSafe(m: Model, s: KvState, mem: Memory)
    requires ConfigOk(s.cfg) && s.pending.Some? && ContentOk(m, s, mem) && StateOk(s)
    ensures s.pending.value.id in s.sequences && s.pending.value.original <= |s.sequences[s.pending.value.id].blocks|
    ensures var t := Rollback(s);
      && t.cfg == s.cfg && ContentOk(m, t, mem) && Histories(t) == Histories(s) && t.pending.None? && t.reservations == s.reservations
  {
    RollbackContent(m, s, mem);
    hide StateOk, ContentOk;
    RollbackView(s);
  }

  lemma CommitSafe(m: Model, s: KvState, mem: Memory)
    requires ConfigOk(s.cfg) && ReadyToWrite(s) && ContentOk(m, s, mem) && Written(m, s, mem, |s.pending.value.tokens|) && StateOk(s)
    ensures var p, t := s.pending.value, Commit(s).state;
      && t.cfg == s.cfg && ContentOk(m, t, mem) && Commit(s).reply.Value? && t.pending.None? && t.reservations == s.reservations
      && Histories(t) == Histories(s)[p.id := s.sequences[p.id].tokens + p.tokens]
  {
    var p := s.pending.value;
    assert p.tokens[..|p.tokens|] == p.tokens;
    CommitContent(m, s, mem);
    hide StateOk, ContentOk;
    CommitView(s);
  }

  /** The table has a page of the pool for each of the first `n` positions. */
  ghost predicate Reaches(table: seq<nat>, n: nat, size: nat, blocks: nat)
    requires size > 0
  {
    forall i :: 0 <= i < n ==> i / size < |table| && table[i / size] < blocks
  }

  lemma RowShapes(m: Model, g: L.Grid, vocabulary: nat, rows: seq<Payload>, t: Token)
    requires Shaped(m, g, vocabulary)
    ensures L.RowShape(g, m.encode(rows, t).key) && L.RowShape(g, m.encode(rows, t).value) && |m.logits(rows, t)| == vocabulary
  {
  }

  lemma LogitsSize(m: Model, g: L.Grid, vocabulary: nat, h: seq<Token>)
    requires Shaped(m, g, vocabulary) && h != []
    ensures |Logits(m, h)| == vocabulary
  {
    hide History, L.RowShape;
    RowShapes(m, g, vocabulary, History(m, h[..|h| - 1]), h[|h| - 1]);
  }

  ghost predicate Reads(mem: Memory, table: seq<nat>, n: nat, size: nat, rows: seq<Payload>)
    requires size > 0
  {
    |rows| == n && forall i :: 0 <= i < n ==> ReadsAt(mem, table, size, i, rows[i])
  }

  ghost predicate ReadsAt(mem: Memory, table: seq<nat>, size: nat, i: nat, row: Payload)
    requires size > 0
  {
    i / size < |table| && table[i / size] < |mem| && i % size < |mem[table[i / size]]| && mem[table[i / size]][i % size] == row
  }

  lemma SlotInPage(t: nat, size: nat)
    requires size > 0
    ensures t % size < size
  {
  }

  lemma EmptyContent(m: Model, s: KvState, mem: Memory)
    requires ConfigOk(s.cfg) && MemoryShape(s.cfg, mem) && s.sequences == map[] && s.cache == Flat(map[], []) && s.pending.None?
    ensures ContentOk(m, s, mem)
  {
  }
}
