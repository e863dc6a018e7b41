/** The backend side of an append: the tail copy and the new rows only ever go to pages with a single holder,
    so no other claim on the memory changes; reading back through the table gives the history. */
module KvWrites {
  import opened Arithmetic
  import opened Prelude
  import opened PageKeys
  import opened KvPool
  import opened FlatCache
  import opened KvSpec
  import opened KvInvariant
  import opened KvContent
  import opened CausalModel

  /** Nobody but the appending sequence, at table index `j`, refers to page `b`. */
  ghost predicate OnlyHolder(s: KvState, b: nat, j: nat)
    requires s.pending.Some? && s.pending.value.id in s.sequences
  {
    var p := s.pending.value;
    && (forall id, i :: id in s.sequences && id != p.id && 0 <= i < |s.sequences[id].blocks| ==> s.sequences[id].blocks[i] != b)
    && (forall i :: 0 <= i < |s.sequences[p.id].blocks| && i != j ==> s.sequences[p.id].blocks[i] != b)
    && (forall k :: k in s.cache.entries ==> s.cache.entries[k] != b)
    && (p.copy.Some? ==> p.copy.value.source != b)
  }

  lemma SoleExcludes(s: KvState, j: nat)
    requires s.pending.Some? && s.pending.value.id in s.sequences && j < |s.sequences[s.pending.value.id].blocks|
    requires Held(s)[s.sequences[s.pending.value.id].blocks[j]] == 1
    ensures OnlyHolder(s, s.sequences[s.pending.value.id].blocks[j], j)
  {
    var p := s.pending.value;
    var blocks := s.sequences[p.id].blocks;
    var b := blocks[j];
    var tables := Tables(s.sequences);
    TableOwned(s, p.id);
    assert b in multiset(blocks);
    forall id, i | id in s.sequences && id != p.id && 0 <= i < |s.sequences[id].blocks|
      ensures s.sequences[id].blocks[i] != b
    {
      BagTwoHolders(tables, p.id, id, b);
      assert s.sequences[id].blocks[i] in multiset(tables[id]);
    }
    forall i | 0 <= i < |blocks| && i != j ensures blocks[i] != b {
      if blocks[i] == b {
        MultiplicityAtTwoIndices(blocks, if i < j then i else j, if i < j then j else i);
      }
    }
    forall k | k in s.cache.entries ensures s.cache.entries[k] != b {
      LeasedMember(s.cache.entries, k);
    }
  }

  // ---- What a write to one page can and cannot disturb ----

  /** Page `b` of the memory replaced. */
  function SetPage(mem: Memory, b: nat, page: seq<Payload>): Memory
    requires b < |mem|
  {
    mem[b := page]
  }

  lemma OtherPageHolds(m: Model, size: nat, mem: Memory, b: nat, page: seq<Payload>, c: nat, k: Key)
    requires size > 0 && b < |mem| && PageHolds(m, size, mem, c, k) && c != b
    ensures PageHolds(m, size, SetPage(mem, b, page), c, k)
  {
    hide Holds;
  }

  /** A table that avoids the page, or uses it at index `j` with no more than `valid` valid slots. */
  lemma TableUndisturbed(m: Model, size: nat, mem: Memory, b: nat, page: seq<Payload>, table: seq<nat>, tokens: seq<Token>, j: nat, valid: nat)
    requires size > 0 && b < |mem| && TableHolds(m, size, mem, table, tokens)
    requires forall i :: 0 <= i < |table| && i != j ==> table[i] != b
    requires j < PageCount(|tokens|, size) && table[j] == b ==>
      && |page| == size && valid <= size && |mem[b]| == size && mem[b][..valid] == page[..valid]
      && |PageKey(tokens, j, size)| <= j * size + valid
    ensures TableHolds(m, size, SetPage(mem, b, page), table, tokens)
  {
    forall i | 0 <= i < PageCount(|tokens|, size)
      ensures PageHolds(m, size, SetPage(mem, b, page), table[i], PageKey(tokens, i, size))
    {
      assert PageHolds(m, size, mem, table[i], PageKey(tokens, i, size));
      if table[i] == b {
        PageKeyBounds(tokens, j, size);
        HoldsStable(m, size, mem[b], page, PageKey(tokens, j, size), valid);
      } else {
        OtherPageHolds(m, size, mem, b, page, table[i], PageKey(tokens, i, size));
      }
    }
  }

  lemma CacheUndisturbed(m: Model, size: nat, mem: Memory, b: nat, page: seq<Payload>, entries: map<Key, nat>)
    requires size > 0 && b < |mem| && CacheHolds(m, size, mem, entries)
    requires forall k :: k in entries ==> entries[k] != b
    ensures CacheHolds(m, size, SetPage(mem, b, page), entries)
  {
    forall k | k in entries ensures PageHolds(m, size, SetPage(mem, b, page), entries[k], k) {
      OtherPageHolds(m, size, mem, b, page, entries[k], k);
    }
  }

  /** Slots of the first writable page that already belong to committed tokens. */
  function ValidSlots(used: nat, j: nat, size: nat): nat {
    if j * size < used then used - j * size else 0
  }

  lemma ValidSlotsBound(tokens: seq<Token>, j: nat, size: nat)
    requires size > 0 && j < PageCount(|tokens|, size)
    ensures |PageKey(tokens, j, size)| <= j * size + ValidSlots(|tokens|, j, size)
  {
    PageKeyBounds(tokens, j, size);
  }

  lemma CommittedTableAvoids(s: KvState, b: nat, j: nat, id: RequestId)
    requires ConfigOk(s.cfg) && s.pending.Some? && PendingOk(s, s.pending.value)
    requires id in s.sequences && j < |s.sequences[s.pending.value.id].blocks| && OnlyHolder(s, b, j)
    ensures forall i :: 0 <= i < |CommittedTable(s, id)| && !(id == s.pending.value.id && i == j) ==> CommittedTable(s, id)[i] != b
    ensures id == s.pending.value.id && j < |CommittedTable(s, id)| && CommittedTable(s, id)[j] == b && s.pending.value.original <= j + 1 ==>
      s.pending.value.copy.None?
  {
    hide SoleHolder, Held, PageCount;
  }

  /** Replacing a singly held writable page keeps every committed claim; once the tail is in place, so do its valid slots. */
  lemma WriteKeepsContent(m: Model, s: KvState, mem: Memory, j: nat, page: seq<Payload>)
    requires MetaOk(s) && ContentOk(m, s, mem) && s.pending.Some? && s.pending.value.id in s.sequences
    requires j < |s.sequences[s.pending.value.id].blocks|
    requires OnlyHolder(s, s.sequences[s.pending.value.id].blocks[j], j)
    requires |page| == s.cfg.blockTokens && s.sequences[s.pending.value.id].blocks[j] < |mem|
    requires s.pending.value.original <= j + 1
    requires s.pending.value.copy.None? || s.pending.value.copied ==>
      var q := s.sequences[s.pending.value.id];
      var valid := ValidSlots(q.used, j, s.cfg.blockTokens);
      valid <= s.cfg.blockTokens && |mem[q.blocks[j]]| == s.cfg.blockTokens && mem[q.blocks[j]][..valid] == page[..valid]
    ensures ContentOk(m, s, SetPage(mem, s.sequences[s.pending.value.id].blocks[j], page))
  {
    hide MetaOk, TableHolds, CacheHolds, PageCount, ValidSlots, SetPage, CommittedTable;
    var p := s.pending.value;
    var q, size := s.sequences[p.id], s.cfg.blockTokens;
    var b, valid := q.blocks[j], ValidSlots(q.used, j, size);
    var next := SetPage(mem, b, page);
    PendingLength(s);
    assert |next| == |mem| && forall x :: 0 <= x < |mem| ==> |next[x]| == if x == b then |page| else |mem[x]| by {
      SetPageSizes(mem, b, page);
    }
    forall id | id in s.sequences ensures TableHolds(m, size, next, CommittedTable(s, id), s.sequences[id].tokens) {
      SequenceUndisturbed(m, s, mem, j, page, id);
    }
    CacheUndisturbed(m, size, mem, b, page, s.cache.entries);
    if p.copy.None? || p.copied {
      if j < PageCount(|q.tokens|, size) {
        ValidSlotsBound(q.tokens, j, size);
      }
      TableUndisturbed(m, size, mem, b, page, q.blocks, q.tokens, j, valid);
    }
  }

  lemma PendingLength(s: KvState)
    requires MetaOk(s) && s.pending.Some? && s.pending.value.id in s.sequences
    ensures s.cfg.blockTokens > 0 && ConfigOk(s.cfg) && s.sequences[s.pending.value.id].used == |s.sequences[s.pending.value.id].tokens|
  {
    hide Counts, Held, SoleHolder, PageCount;
  }

  lemma SetPageSizes(mem: Memory, b: nat, page: seq<Payload>)
    requires b < |mem|
    ensures |SetPage(mem, b, page)| == |mem| && forall x :: 0 <= x < |mem| ==> |SetPage(mem, b, page)[x]| == if x == b then |page| else |mem[x]|
  {
  }

  lemma SequenceUndisturbed(m: Model, s: KvState, mem: Memory, j: nat, page: seq<Payload>, id: RequestId)
    requires MetaOk(s) && ContentOk(m, s, mem) && s.pending.Some? && s.pending.value.id in s.sequences && id in s.sequences
    requires j < |s.sequences[s.pending.value.id].blocks|
    requires OnlyHolder(s, s.sequences[s.pending.value.id].blocks[j], j)
    requires |page| == s.cfg.blockTokens && s.sequences[s.pending.value.id].blocks[j] < |mem|
    requires s.pending.value.original <= j + 1
    requires s.pending.value.copy.None? || s.pending.value.copied ==>
      var q := s.sequences[s.pending.value.id];
      var valid := ValidSlots(q.used, j, s.cfg.blockTokens);
      valid <= s.cfg.blockTokens && |mem[q.blocks[j]]| == s.cfg.blockTokens && mem[q.blocks[j]][..valid] == page[..valid]
    ensures TableHolds(m, s.cfg.blockTokens, SetPage(mem, s.sequences[s.pending.value.id].blocks[j], page), CommittedTable(s, id), s.sequences[id].tokens)
  {
    var p := s.pending.value;
    var q, size := s.sequences[p.id], s.cfg.blockTokens;
    var b, valid := q.blocks[j], ValidSlots(q.used, j, size);
    CommittedTableAvoids(s, b, j, id);
    var table, tokens := CommittedTable(s, id), s.sequences[id].tokens;
    hide OnlyHolder, CommittedTable;
    assert TableHolds(m, size, mem, table, tokens);
    if id == p.id && j < PageCount(|tokens|, size) && table[j] == b {
      assert q.used == |q.tokens|;
      ValidSlotsBound(tokens, j, size);
      hide MetaOk, TableHolds, PageCount, PageKey, ValidSlots, CacheHolds;
      TableUndisturbed(m, size, mem, b, page, table, tokens, j, valid);
    } else {
      hide MetaOk, TableHolds, PageKey, ValidSlots, CacheHolds;
      TableUndisturbed(m, size, mem, b, page, table, tokens, if id == p.id then j else |table|, valid);
    }
  }

  // ---- The tail copy ----

  /** The replacement page after the copy of the valid slots; later slots keep what they had. */
  function CopiedPage(mem: Memory, copy: TailCopy): seq<Payload>
    requires copy.source < |mem| && copy.destination < |mem|
    requires copy.validTokens <= |mem[copy.source]| && copy.validTokens <= |mem[copy.destination]|
  {
    mem[copy.source][..copy.validTokens] + mem[copy.destination][copy.validTokens..]
  }

  /** The open copy refers to pages of the memory and to slots of those pages. */
  lemma CopyInRange(m: Model, s: KvState, mem: Memory)
    requires MetaOk(s) && ContentOk(m, s, mem) && s.pending.Some? && s.pending.value.copy.Some?
    ensures var copy := s.pending.value.copy.value;
      && copy.source < |mem| && copy.destination < |mem|
      && copy.validTokens <= |mem[copy.source]| && copy.validTokens <= |mem[copy.destination]|
  {
    var p := s.pending.value;
    var copy := p.copy.value;
    PendingIsHeld(s);
    HeldInPool(s.pool, Held(s), copy.source);
    HeldInPool(s.pool, Held(s), copy.destination);
    DivisionBounds(s.sequences[p.id].used, s.cfg.blockTokens);
    hide Held, Counts, SoleHolder, SequencesHold, CacheHolds, TableHolds, PageCount;
  }

  lemma PendingIsHeld(s: KvState)
    requires ConfigOk(s.cfg) && s.pending.Some? && s.pending.value.copy.Some? && PendingOk(s, s.pending.value)
    ensures s.pending.value.copy.value.source in Held(s) && s.pending.value.copy.value.destination in Held(s)
  {
    var p := s.pending.value;
    TableOwned(s, p.id);
    assert p.copy.value.destination in multiset(s.sequences[p.id].blocks);
  }

  lemma HeldInPool(p: Pool, held: multiset<nat>, b: nat)
    requires Counts(p, held) && b in held
    ensures b < |p.refs|
  {
  }

  /** Copying the valid slots of every row makes the new table as good as the old one, and disturbs nobody. */
  lemma CopyKeepsContent(m: Model, s: KvState, mem: Memory)
    requires MetaOk(s) && ContentOk(m, s, mem) && s.pending.Some? && s.pending.value.copy.Some? && !s.pending.value.copied
    requires var copy := s.pending.value.copy.value;
      && copy.source < |mem| && copy.destination < |mem|
      && copy.validTokens <= |mem[copy.source]| && copy.validTokens <= |mem[copy.destination]|
    ensures var copy := s.pending.value.copy.value;
      ContentOk(m, MarkCopied(s), SetPage(mem, copy.destination, CopiedPage(mem, copy)))
  {
    var p := s.pending.value;
    var copy, q, size := p.copy.value, s.sequences[p.id], s.cfg.blockTokens;
    var j := p.original - 1;
    assert PageCount(q.used, size) <= |q.blocks|;
    SoleAtWritable(s, j);
    var page := CopiedPage(mem, copy);
    var next := SetPage(mem, copy.destination, page);
    WriteKeepsContent(m, s, mem, j, page);
    CopiedTableHolds(m, s, mem);
    hide MetaOk, TableHolds, CacheHolds, CopiedPage, SetPage, OriginalTable, MemoryShape;
    assert forall id :: id in s.sequences ==> CommittedTable(MarkCopied(s), id) == CommittedTable(s, id) by {
      MarkKeepsTables(s);
    }
  }

  lemma MarkKeepsTables(s: KvState)
    requires s.pending.Some?
    ensures forall id :: id in s.sequences ==> CommittedTable(MarkCopied(s), id) == CommittedTable(s, id)
  {
  }

  lemma SoleAtWritable(s: KvState, j: nat)
    requires ConfigOk(s.cfg) && s.pending.Some? && PendingOk(s, s.pending.value)
    requires FirstWritable(s.sequences[s.pending.value.id].used, s.pending.value.original, s.cfg.blockTokens) <= j < |s.sequences[s.pending.value.id].blocks|
    ensures OnlyHolder(s, s.sequences[s.pending.value.id].blocks[j], j)
  {
    assert Held(s)[s.sequences[s.pending.value.id].blocks[j]] == 1;
    hide Held, FirstWritable, PageCount;
    SoleExcludes(s, j);
  }

  lemma CopiedTableHolds(m: Model, s: KvState, mem: Memory)
    requires MetaOk(s) && ContentOk(m, s, mem) && s.pending.Some? && s.pending.value.copy.Some?
    requires var copy := s.pending.value.copy.value;
      && copy.source < |mem| && copy.destination < |mem|
      && copy.validTokens <= |mem[copy.source]| && copy.validTokens <= |mem[copy.destination]|
    ensures var copy, q := s.pending.value.copy.value, s.sequences[s.pending.value.id];
      TableHolds(m, s.cfg.blockTokens, SetPage(mem, copy.destination, CopiedPage(mem, copy)), q.blocks, q.tokens)
  {
    var p := s.pending.value;
    CopyFacts(s);
    CommittedHolds(m, s, mem);
    hide MetaOk, ContentOk, PageCount, PageKey, Holds, TableHolds;
    CopiedPages(m, s.cfg.blockTokens, mem, p.copy.value, CommittedTable(s, p.id), s.sequences[p.id].blocks, s.sequences[p.id].tokens);
  }

  lemma CommittedHolds(m: Model, s: KvState, mem: Memory)
    requires MetaOk(s) && ContentOk(m, s, mem) && s.pending.Some? && s.pending.value.copy.Some?
    ensures s.pending.value.id in s.sequences
    ensures TableHolds(m, s.cfg.blockTokens, mem, CommittedTable(s, s.pending.value.id), s.sequences[s.pending.value.id].tokens)
    ensures forall i :: 0 <= i < |mem| ==> |mem[i]| == s.cfg.blockTokens
  {
    hide TableHolds, Held, Counts, CacheOk;
  }

  /** The copy replaces the last page of the committed table, and no other page of the new table is its destination. */
  lemma CopyFacts(s: KvState)
    requires MetaOk(s) && s.pending.Some? && s.pending.value.copy.Some?
    ensures s.pending.value.id in s.sequences
    ensures var p := s.pending.value;
      var table, q, copy := CommittedTable(s, p.id), s.sequences[p.id], p.copy.value;
      && PageCount(|q.tokens|, s.cfg.blockTokens) == |table| > 0 && |table| <= |q.blocks|
      && (forall i :: 0 <= i < |table| - 1 ==> q.blocks[i] == table[i] && q.blocks[i] != copy.destination)
      && table[|table| - 1] == copy.source && q.blocks[|table| - 1] == copy.destination
      && copy.validTokens <= s.cfg.blockTokens && |q.tokens| == (|table| - 1) * s.cfg.blockTokens + copy.validTokens
  {
    var p := s.pending.value;
    var q, size := s.sequences[p.id], s.cfg.blockTokens;
    assert PageCount(|q.tokens|, size) == p.original;
    SoleAtWritable(s, p.original - 1);
    TailSlots(q.used, p.original, size);
    hide PageCount;
  }

  /** The last page of a table is replaced by its copy. */
  lemma CopiedPages(m: Model, size: nat, mem: Memory, copy: TailCopy, table: seq<nat>, blocks: seq<nat>, tokens: seq<Token>)
    requires size > 0 && TableHolds(m, size, mem, table, tokens) && PageCount(|tokens|, size) == |table| > 0 && |table| <= |blocks|
    requires copy.source < |mem| && copy.destination < |mem| && |mem[copy.source]| == |mem[copy.destination]| == size
    requires forall i :: 0 <= i < |table| - 1 ==> blocks[i] == table[i] && blocks[i] != copy.destination
    requires table[|table| - 1] == copy.source && blocks[|table| - 1] == copy.destination
    requires copy.validTokens <= size && |tokens| == (|table| - 1) * size + copy.validTokens
    ensures TableHolds(m, size, SetPage(mem, copy.destination, CopiedPage(mem, copy)), blocks, tokens)
  {
    var next, n := SetPage(mem, copy.destination, CopiedPage(mem, copy)), |table|;
    PageKeyBounds(tokens, n - 1, size);
    hide PageCount, PageKey, Holds, PageStart;
    forall i | 0 <= i < n ensures PageHolds(m, size, next, blocks[i], PageKey(tokens, i, size)) {
      assert PageHolds(m, size, mem, table[i], PageKey(tokens, i, size));
      if i == n - 1 {
        HoldsStable(m, size, mem[copy.source], CopiedPage(mem, copy), PageKey(tokens, i, size), copy.validTokens);
      } else {
        OtherPageHolds(m, size, mem, copy.destination, CopiedPage(mem, copy), blocks[i], PageKey(tokens, i, size));
      }
    }
  }

  /** A partial last page holds `used % size` tokens. */
  lemma TailSlots(used: nat, pages: nat, size: nat)
    requires size > 0 && used % size != 0 && pages == PageCount(used, size)
    ensures pages > 0 && used == (pages - 1) * size + used % size
  {
    DivisionBounds(used, size);
  }

  // ---- New rows ----

  /** Writing the row of the next position extends the history the table holds by that token. */
  lemma RowExtendsTable(m: Model, size: nat, mem: Memory, table: seq<nat>, tokens: seq<Token>, t: Token, j: nat, slot: nat)
    requires size > 0 && TableHolds(m, size, mem, table, tokens)
    requires |tokens| == j * size + slot && slot < size && j < |table| && table[j] < |mem| && |mem[table[j]]| == size
    requires forall i :: 0 <= i < |table| && i != j ==> table[i] != table[j]
    ensures TableHolds(m, size, SetPage(mem, table[j], mem[table[j]][slot := Row(m, tokens + [t])]), table, tokens + [t])
  {
    var page := mem[table[j]][slot := Row(m, tokens + [t])];
    var next := SetPage(mem, table[j], page);
    var longer := tokens + [t];
    ExtendedPages(|tokens|, j, slot, size);
    hide PageCount;
    forall i | 0 <= i < PageCount(|longer|, size) ensures PageHolds(m, size, next, table[i], PageKey(longer, i, size)) {
      if i < j {
        InnerKeyKept(tokens, t, i, j, size);
        assert PageHolds(m, size, mem, table[i], PageKey(tokens, i, size));
        OtherPageHolds(m, size, mem, table[j], page, table[i], PageKey(tokens, i, size));
      } else {
        LastPageHolds(m, size, mem, table, tokens, t, j, slot);
      }
    }
  }

  lemma ExtendedPages(n: nat, j: nat, slot: nat, size: nat)
    requires size > 0 && n == j * size + slot && slot < size
    ensures PageCount(n + 1, size) == j + 1
    ensures PageCount(n, size) == if slot == 0 then j else j + 1
    ensures PageStart(n + 1, size) == j * size
  {
    MulMonotone(j, j, size);
    PageCountUnique(n + 1, size, j + 1);
    QuotientUnique(n, size, j);
    if slot > 0 {
      PageCountUnique(n, size, j + 1);
    } else if j > 0 {
      PageCountUnique(n, size, j);
    } else {
      PageCountBounds(0, size);
    }
  }

  lemma InnerKeyKept(tokens: seq<Token>, t: Token, i: nat, j: nat, size: nat)
    requires size > 0 && i < j && j * size <= |tokens|
    ensures i < PageCount(|tokens|, size)
    ensures PageKey(tokens + [t], i, size) == PageKey(tokens, i, size)
  {
    MulMonotone(i + 1, j, size);
    PageStartsInside(i, |tokens|, size);
    MulMonotone(i, i, size);
    hide PageCount;
    var e := (i + 1) * size;
    assert (tokens + [t])[..e] == tokens[..e];
  }

  lemma LastPageHolds(m: Model, size: nat, mem: Memory, table: seq<nat>, tokens: seq<Token>, t: Token, j: nat, slot: nat)
    requires size > 0 && TableHolds(m, size, mem, table, tokens)
    requires |tokens| == j * size + slot && slot < size && j < |table| && table[j] < |mem| && |mem[table[j]]| == size
    ensures PageHolds(m, size, SetPage(mem, table[j], mem[table[j]][slot := Row(m, tokens + [t])]), table[j], PageKey(tokens + [t], j, size))
  {
    var page, longer, start := mem[table[j]][slot := Row(m, tokens + [t])], tokens + [t], j * size;
    ExtendedPages(|tokens|, j, slot, size);
    WholeKey(longer, j, size);
    if slot > 0 {
      assert PageHolds(m, size, mem, table[j], PageKey(tokens, j, size));
      WholeKey(tokens, j, size);
      SamePage(|tokens|, |longer|, size);
    }
    hide PageStart, PageCount, PageKey, Row, TableHolds;
    forall i | start <= i < |longer| ensures SlotHolds(m, page, longer, start, i) {
      if i < |tokens| {
        assert SlotHolds(m, mem[table[j]], tokens, start, i);
        assert longer[..i + 1] == tokens[..i + 1];
      } else {
        assert longer[..i + 1] == longer;
      }
    }
  }

  lemma WholeKey(tokens: seq<Token>, j: nat, size: nat)
    requires size > 0 && |tokens| <= j * size + size
    ensures PageKey(tokens, j, size) == tokens
  {
    MulMonotone(j, j, size);
    assert tokens[..|tokens|] == tokens;
  }

  // ---- Reading ----

  /** The rows of the first `n` positions, fetched through the block table. */
  function ReadRows(mem: Memory, table: seq<nat>, n: nat, size: nat): seq<Payload>
    requires size > 0
    requires forall i :: 0 <= i < n ==> i / size < |table| && table[i / size] < |mem| && i % size < |mem[table[i / size]]|
  {
    seq(n, i requires 0 <= i < n => mem[table[i / size]][i % size])
  }

  /** Reading through the table never leaves it and returns the rows of the history. */
  lemma ReadBack(m: Model, size: nat, mem: Memory, table: seq<nat>, tokens: seq<Token>)
    requires size > 0 && TableHolds(m, size, mem, table, tokens)
    ensures forall i :: 0 <= i < |tokens| ==> i / size < |table| && table[i / size] < |mem| && i % size < |mem[table[i / size]]|
    ensures ReadRows(mem, table, |tokens|, size) == History(m, tokens)
  {
    forall i | 0 <= i < |tokens|
      ensures i / size < |table| && table[i / size] < |mem| && i % size < |mem[table[i / size]]|
      ensures mem[table[i / size]][i % size] == History(m, tokens)[i]
    {
      ReadOne(m, size, mem, table, tokens, i);
    }
  }

  lemma ReadOne(m: Model, size: nat, mem: Memory, table: seq<nat>, tokens: seq<Token>, i: nat)
    requires size > 0 && TableHolds(m, size, mem, table, tokens) && i < |tokens|
    ensures i / size < |table| && table[i / size] < |mem| && i % size < |mem[table[i / size]]|
    ensures mem[table[i / size]][i % size] == History(m, tokens)[i]
  {
    hide Row, History, PageCount, PageEnd, PageKey;
    var j := i / size;
    PositionPage(i, |tokens|, size);
    PageKeyBounds(tokens, j, size);
    PageHeld(m, size, mem, table, tokens, j);
    hide TableHolds;
    var key := PageKey(tokens, j, size);
    SlotRow(m, size, mem[table[j]], key, j, i);
    KeyFront(tokens, j, size, i);
    HistoryRow(m, tokens, i);
  }

  lemma KeyFront(tokens: seq<Token>, j: nat, size: nat, i: nat)
    requires size > 0 && j < PageCount(|tokens|, size) && i < |PageKey(tokens, j, size)|
    ensures i < |tokens| && PageKey(tokens, j, size)[..i + 1] == tokens[..i + 1]
  {
    PageEndBounds(j, |tokens|, size);
    hide PageCount, PageEnd;
  }

  lemma PageHeld(m: Model, size: nat, mem: Memory, table: seq<nat>, tokens: seq<Token>, j: nat)
    requires size > 0 && TableHolds(m, size, mem, table, tokens) && j < PageCount(|tokens|, size)
    ensures j < |table| && table[j] < |mem| && Holds(m, size, mem[table[j]], PageKey(tokens, j, size))
  {
    hide PageCount, PageKey, Holds;
    assert PageHolds(m, size, mem, table[j], PageKey(tokens, j, size));
  }

  lemma SlotRow(m: Model, size: nat, page: seq<Payload>, key: Key, j: nat, i: nat)
    requires size > 0 && Holds(m, size, page, key) && j == i / size && j * size <= i < |key| && PageStart(|key|, size) == j * size
    ensures i % size < |page| && page[i % size] == Row(m, key[..i + 1])
  {
    hide Row, PageStart;
    DivisionBounds(i, size);
    var start := j * size;
    assert SlotHolds(m, page, key, start, i);
  }
}
