/** ExactPrefixCache (miniprefix/src/kv/prefix_cache.cpp): the trie operations, proved equal to the flat cache. */
module PrefixTrie {
  import opened Arithmetic
  import opened Prelude
  import opened PageKeys
  import opened LexOrder
  import opened KvPool
  import opened FlatCache
  import opened PrefixMatch
  import opened TrieIndex
  import opened TrieWalk

  // ---- Lookup helpers ----

  method CommonPrefix(a: seq<int>, b: seq<int>) returns (n: nat)
    ensures n == Lcp(a, b)
  {
    n := 0;
    while n < |a| && n < |b| && a[n] == b[n]
      invariant n <= |a| && n <= |b| && a[..n] == b[..n]
    {
      n := n + 1;
    }
    LcpUnique(a, b, n);
  }

  /** The lower bound of the query among the edges, and the edge before it. */
  method FindNeighbours(edges: set<Page>, query: Page) returns (left: Option<Page>, right: Option<Page>)
    ensures Neighbours(edges, query, left, right)
  {
    left, right := None, None;
    var rest := edges;
    ghost var seen: set<Page> := {};
    while rest != {}
      invariant seen + rest == edges && seen !! rest
      invariant Neighbours(seen, query, left, right)
      decreases |rest|
    {
      var e :| e in rest;
      NeighboursAdd(seen, query, left, right, e);
      if Less(e, query) {
        if left.None? || Less(left.value, e) {
          left := Some(e);
        }
      } else if right.None? || Less(e, right.value) {
        right := Some(e);
      }
      rest, seen := rest - {e}, seen + {e};
    }
  }

  lemma NeighboursAdd(s: set<Page>, query: Page, left: Option<Page>, right: Option<Page>, e: Page)
    requires Neighbours(s, query, left, right) && e !in s
    ensures var l := if Less(e, query) && (left.None? || Less(left.value, e)) then Some(e) else left;
      var r := if !Less(e, query) && (right.None? || Less(e, right.value)) then Some(e) else right;
      Neighbours(s + {e}, query, l, r)
  {
    if left.Some? {
      LessTotal(left.value, e);
      forall x | x in s && x != left.value && Less(x, query) && Less(left.value, e) ensures Less(x, e) {
        LessTransitive(x, left.value, e);
      }
    }
    if right.Some? {
      LessTotal(right.value, e);
      forall x | x in s && x != right.value && !Less(x, query) && Less(e, right.value) ensures Less(e, x) {
        LessTransitive(e, right.value, x);
      }
    }
  }

  /** Names of the searchable children of the node named `p`. */
  ghost function ChildKeys(p: Key, edges: set<Page>): set<Key> {
    set e | e in edges :: p + e
  }

  ghost function Under(p: Key, e: Option<Page>): Option<Key> {
    if e.Some? then Some(p + e.value) else None
  }

  lemma NeighboursLift(p: Key, edges: set<Page>, page: Page, left: Option<Page>, right: Option<Page>)
    requires Neighbours(edges, page, left, right)
    ensures Neighbours(ChildKeys(p, edges), p + page, Under(p, left), Under(p, right))
  {
    var s := ChildKeys(p, edges);
    forall x | x in s
      ensures exists e :: e in edges && x == p + e && (Less(x, p + page) <==> Less(e, page))
    {
      var e :| e in edges && x == p + e;
      LessCommonFront(p, e, page);
    }
    if right.Some? {
      LessCommonFront(p, right.value, page);
      forall x | x in s && x != p + right.value && !Less(x, p + page) ensures Less(p + right.value, x) {
        var e :| e in edges && x == p + e && (Less(x, p + page) <==> Less(e, page));
        LessCommonFront(p, right.value, e);
      }
    }
    if left.Some? {
      LessCommonFront(p, left.value, page);
      forall x | x in s && x != p + left.value && Less(x, p + page) ensures Less(x, p + left.value) {
        var e :| e in edges && x == p + e && (Less(x, p + page) <==> Less(e, page));
        LessCommonFront(p, e, left.value);
      }
    }
  }

  /** A searchable edge names a leased entry. */
  lemma ChildIsEntry(ix: Index, at: map<Key, nat>, keyOf: map<nat, Key>, size: nat, n: nat, e: Page)
    requires size > 0 && TreeOk(ix.shape, ix.block, at, keyOf, size) && n in keyOf && n in ix.shape.available && e in ix.shape.available[n]
    ensures var c := ix.shape.available[n][e];
      && c in ix.block && c in keyOf && c != Root && keyOf[c] == keyOf[n] + e && IsEdge(keyOf[n], e, size)
      && keyOf[n] + e in Entries(at, ix.block) && Entries(at, ix.block)[keyOf[n] + e] == ix.block[c]
  {
    assert NodeSearch(ix.shape.available[n], ix.shape.children[n], ix.block);
    assert NodeDown(ix.shape.children[n], at, keyOf[n], size);
    hide Upward, IsEdge;
  }

  /** An entry that extends the node's name by at most one page is one of its searchable children. */
  lemma ExtensionIsChild(ix: Index, at: map<Key, nat>, keyOf: map<nat, Key>, size: nat, n: nat, x: Key)
    requires size > 0 && TreeOk(ix.shape, ix.block, at, keyOf, size) && n in keyOf
    requires x in Entries(at, ix.block) && |keyOf[n]| < |x| <= |keyOf[n]| + size && x[..|keyOf[n]|] == keyOf[n] && |keyOf[n]| % size == 0
    ensures n in ix.shape.available && x[|keyOf[n]|..] in ix.shape.available[n]
  {
    var e := x[|keyOf[n]|..];
    assert x == keyOf[n] + e && IsEdge(keyOf[n], e, size);
    assert NodeSearch(ix.shape.available[n], ix.shape.children[n], ix.block);
    assert NodeDown(ix.shape.children[n], at, keyOf[n], size);
    hide Upward, IsEdge;
    assert keyOf[n] + e in at;
  }

  lemma CandidateExtends(x: Key, query: seq<Token>, count: nat, size: nat)
    requires Candidate(x, query, count, size)
    ensures count < |x| <= count + size && count <= |query| && x[..count] == query[..count]
  {
    LcpCharacterized(x, query);
    var n := Lcp(x, query);
    assert x[..count] == x[..n][..count] == query[..n][..count] == query[..count];
  }

  ghost predicate AtLevel(keyOf: map<nat, Key>, n: nat, prompt: seq<Token>, count: nat, size: nat) {
    && size > 0 && n in keyOf && count + 1 < |prompt| && keyOf[n] == prompt[..count] && count % size == 0
  }

  function NextPage(prompt: seq<Token>, count: nat, size: nat): Page
    requires count + 1 < |prompt|
  {
    if count + size <= |prompt| - 1 then prompt[count..count + size] else prompt[count..|prompt| - 1]
  }

  lemma QuerySplits(prompt: seq<Token>, count: nat, size: nat)
    requires count + 1 < |prompt|
    ensures Query(prompt, count, size) == prompt[..count] + NextPage(prompt, count, size)
  {
  }

  /** One level of the search: the winning neighbour is the best entry, and no winner means no candidate. */
  lemma LevelSearch(ix: Index, at: map<Key, nat>, keyOf: map<nat, Key>, size: nat, n: nat, prompt: seq<Token>, count: nat,
                    left: Option<Page>, right: Option<Page>)
    requires AtLevel(keyOf, n, prompt, count, size) && TreeOk(ix.shape, ix.block, at, keyOf, size)
    requires n in ix.shape.available && Neighbours(ix.shape.available[n].Keys, NextPage(prompt, count, size), left, right)
    ensures var keys, query := Entries(at, ix.block).Keys, Query(prompt, count, size);
      var w := Winner(query, count, Under(keyOf[n], left), Under(keyOf[n], right));
      && (w.Some? ==> Best(keys, query, count, size, w.value))
      && (w.None? ==> forall x :: x in keys ==> !Candidate(x, query, count, size))
  {
    var keys, query := Entries(at, ix.block).Keys, Query(prompt, count, size);
    var edges, p := ix.shape.available[n].Keys, keyOf[n];
    QuerySplits(prompt, count, size);
    NeighboursLift(p, edges, NextPage(prompt, count, size), left, right);
    var s := ChildKeys(p, edges);
    hide TreeOk, Neighbours, Query, NextPage, Entries, IsEdge, Lcp, ChildKeys, Winner;
    assert query[..count] == p;
    LevelChildren(ix, at, keyOf, size, n);
    forall x | x in keys && Candidate(x, query, count, size) ensures x in s {
      LevelComplete(ix, at, keyOf, size, n, query, count, x);
    }
    NeighboursSuffice(keys, s, query, count, size, Under(p, left), Under(p, right));
  }

  lemma LevelChildren(ix: Index, at: map<Key, nat>, keyOf: map<nat, Key>, size: nat, n: nat)
    requires size > 0 && TreeOk(ix.shape, ix.block, at, keyOf, size) && n in keyOf && n in ix.shape.available
    ensures ChildKeys(keyOf[n], ix.shape.available[n].Keys) <= Entries(at, ix.block).Keys
    ensures forall x :: x in ChildKeys(keyOf[n], ix.shape.available[n].Keys) ==> |x| <= |keyOf[n]| + size
  {
    hide TreeOk, Entries, IsEdge;
    forall x | x in ChildKeys(keyOf[n], ix.shape.available[n].Keys)
      ensures x in Entries(at, ix.block).Keys && |x| <= |keyOf[n]| + size
    {
      var e :| e in ix.shape.available[n].Keys && x == keyOf[n] + e;
      ChildIsEntry(ix, at, keyOf, size, n, e);
      EdgeLength(keyOf[n], e, size);
    }
  }

  lemma LevelComplete(ix: Index, at: map<Key, nat>, keyOf: map<nat, Key>, size: nat, n: nat, query: seq<Token>, count: nat, x: Key)
    requires size > 0 && TreeOk(ix.shape, ix.block, at, keyOf, size) && n in keyOf && n in ix.shape.available
    requires |keyOf[n]| == count && count % size == 0 && count <= |query| && query[..count] == keyOf[n]
    requires x in Entries(at, ix.block) && Candidate(x, query, count, size)
    ensures x in ChildKeys(keyOf[n], ix.shape.available[n].Keys)
  {
    hide TreeOk, Entries, Candidate;
    CandidateExtends(x, query, count, size);
    ExtensionIsChild(ix, at, keyOf, size, n, x);
    assert x == keyOf[n] + x[count..];
  }

  lemma EdgeLength(p: Key, e: Page, size: nat)
    requires size > 0 && IsEdge(p, e, size)
    ensures |e| <= size
  {
  }

  /** Choosing between the edges is choosing between the names. */
  lemma WinnerLift(p: Key, page: Page, left: Option<Page>, right: Option<Page>)
    ensures Under(p, Winner(page, 0, left, right)) == Winner(p + page, |p|, Under(p, left), Under(p, right))
  {
    if left.Some? {
      LessCommonFront(p, left.value, page);
    }
    if right.Some? {
      LessCommonFront(p, right.value, page);
    }
  }

  lemma WinnerIsNeighbour(s: set<Page>, page: Page, left: Option<Page>, right: Option<Page>)
    requires Neighbours(s, page, left, right)
    ensures var w := Winner(page, 0, left, right); w.Some? ==> w.value in s && Lcp(w.value, page) > 0
  {
  }

  /** What one level of the search contributes to the lookup. */
  lemma LevelOutcome(ix: Index, at: map<Key, nat>, keyOf: map<nat, Key>, size: nat, n: nat, prompt: seq<Token>, count: nat,
                     left: Option<Page>, right: Option<Page>)
    requires AtLevel(keyOf, n, prompt, count, size) && TreeOk(ix.shape, ix.block, at, keyOf, size)
    requires n in ix.shape.available && Neighbours(ix.shape.available[n].Keys, NextPage(prompt, count, size), left, right)
    ensures var keys, page := Entries(at, ix.block).Keys, NextPage(prompt, count, size);
      var w := Winner(page, 0, left, right);
      Lookup(keys, prompt, count, size) ==
        if w.None? then Match([], count)
        else if Lcp(w.value, page) == size then
          var rest := Lookup(keys, prompt, count + size, size);
          Match([keyOf[n] + w.value] + rest.path, rest.length)
        else Match([keyOf[n] + w.value], count + Lcp(w.value, page))
  {
    var keys, page, p := Entries(at, ix.block).Keys, NextPage(prompt, count, size), keyOf[n];
    var query := Query(prompt, count, size);
    LevelSearch(ix, at, keyOf, size, n, prompt, count, left, right);
    QuerySplits(prompt, count, size);
    WinnerLift(p, page, left, right);
    var w := Winner(page, 0, left, right);
    hide TreeOk, Neighbours, Entries, Winner, NextPage, Query, Lcp;
    if w.Some? {
      LessCommonFront(p, w.value, page);
      LookupUnfold(keys, prompt, count, size, p + w.value);
    } else {
      NoBest(keys, query, count, size);
    }
  }

  lemma NoBest(keys: set<Key>, query: seq<Token>, count: nat, size: nat)
    requires forall x :: x in keys ==> !Candidate(x, query, count, size)
    ensures !exists k :: Best(keys, query, count, size, k)
  {
  }

  // ---- The cache ----

  class ExactPrefixCache {
    const pool: KvBlockPool
    const size: nat
    const capacity: nat
    var index: Index
    ghost var at: map<Key, nat>
    ghost var keyOf: map<nat, Key>
    ghost var order: seq<nat>

    ghost predicate Sound()
      reads this
    {
      size > 0 && IndexOk(index, at, keyOf, order, size)
    }

    /** Sound, within capacity, and without dead leaves. */
    ghost predicate Valid()
      reads this
    {
      Sound() && NoDeadLeaf(index, keyOf, None) && |order| <= capacity
    }

    /** The flat cache represented. */
    ghost function View(): Flat
      reads this
    {
      FlatOf(index, at, keyOf, order)
    }

    ghost function ViewStock(): Stock
      reads this, pool
    {
      Stock(pool.View(), View())
    }

    constructor (pool: KvBlockPool, size: nat, capacity: nat)
      requires size > 0
      ensures Valid() && View() == Flat(map[], [])
      ensures this.pool == pool && this.size == size && this.capacity == capacity
    {
      this.pool, this.size, this.capacity := pool, size, capacity;
      index := EmptyIndex;
      at, keyOf, order := map[[] := Root], map[Root := []], [];
      new;
      EmptyOk(size);
    }

    /** Erases empty leaves upward from `start`, but never `guarded`; nothing visible changes. */
    method Prune(start: nat, guarded: Option<nat>)
      requires Sound() && start in keyOf && DeadOnly(index, keyOf, start, guarded)
      modifies this
      ensures Sound() && View() == old(View()) && order == old(order) && index.block == old(index.block)
      ensures NoDeadLeaf(index, keyOf, guarded) && Forgets(old(keyOf), keyOf) && LosesPrefixes(old(keyOf), keyOf, old(keyOf)[start])
      ensures guarded.Some? && guarded.value in old(keyOf) ==> guarded.value in keyOf
      ensures HintCut(old(index.publication), index.publication, keyOf)
    {
      hide IndexOk, FlatOf, DeadOnly, Forgets, HintCut, LosesPrefixes;
      var n := start;
      StartPrune(index, at, keyOf, order, size, start);
      while n != Root && guarded != Some(n) && n !in index.block && index.shape.children[n] == map[]
        invariant Sound() && n in keyOf && n in index.shape.children
        invariant View() == old(View()) && order == old(order) && index.block == old(index.block)
        invariant DeadOnly(index, keyOf, n, guarded) && Forgets(old(keyOf), keyOf)
        invariant guarded.Some? && guarded.value in old(keyOf) ==> guarded.value in keyOf
        invariant HintCut(old(index.publication), index.publication, keyOf)
        invariant keyOf[n] <= old(keyOf)[start] && LosesPrefixes(old(keyOf), keyOf, old(keyOf)[start])
        decreases |keyOf|
      {
        PruneStep(index, at, keyOf, order, size, n, guarded, old(index.publication), old(keyOf));
        PruneLoss(index, at, keyOf, order, size, n, old(keyOf), old(keyOf)[start]);
        var above := index.shape.parent[n];
        index := Detach(index, n);
        at, keyOf := at - {keyOf[n]}, keyOf - {n};
        n := above;
      }
      EndPrune(index, keyOf, n, guarded);
    }

    /** Gives up the lease of listed node number `i` and prunes. */
    method DropNode(n: nat, guarded: Option<nat>, ghost i: nat)
      requires Sound() && i < |order| && order[i] == n && NoDeadLeaf(index, keyOf, guarded)
      requires n in index.block ==> index.block[n] < |pool.references| && pool.references[index.block[n]] > 0
      modifies this, pool
      ensures Sound() && NoDeadLeaf(index, keyOf, guarded)
      ensures n in old(keyOf) && n in old(index.block) && index.block == old(index.block) - {n}
      ensures View() == Flat(old(View()).entries - {old(keyOf)[n]}, Without(old(View()).lru, old(keyOf)[n]))
      ensures pool.View() == Unref(old(pool.View()), old(index.block)[n])
      ensures order == old(order)[..i] + old(order)[i + 1..] && Forgets(old(keyOf), keyOf) && LosesPrefixes(old(keyOf), keyOf, old(keyOf)[n])
      ensures guarded.Some? && guarded.value in old(keyOf) ==> guarded.value in keyOf
      ensures HintCut(old(index.publication), index.publication, keyOf)
    {
      hide IndexOk, FlatOf, Forgets, HintCut, NoDeadLeaf, DeadOnly, Without, Unref, LosesPrefixes;
      UnleaseOk(index, at, keyOf, order, size, i);
      UnleaseDead(index, keyOf, n, guarded);
      var page := index.block[n];
      index := Unlease(index, n);
      order := order[..i] + order[i + 1..];
      pool.UnrefPage(page);
      Prune(n, guarded);
    }

    /** Drops the oldest lease; false when there is none. */
    method EvictOne(ghost others: multiset<nat>) returns (evicted: bool)
      requires Valid() && StockOk(ViewStock(), capacity, others)
      modifies this, pool
      ensures Valid() && ViewStock() == Evict(old(ViewStock()))
      ensures evicted <==> old(View()).lru != []
    {
      if index.links.oldest.None? {
        OldestNode(index, at, keyOf, order, size);
        return false;
      }
      OldestNode(index, at, keyOf, order, size);
      EvictOk(ViewStock(), capacity, others);
      OldestLeased(pool.View(), View(), capacity, others);
      ghost var f := View();
      hide IndexOk, FlatOf, NoDeadLeaf, Unref, StockOk;
      DropNode(index.links.oldest.value, None, 0);
      assert Without(f.lru, f.lru[0]) == f.lru[1..];
      evicted := true;
    }

    /** Marks a leased node as the newest. */
    method Touch(n: nat)
      requires Sound() && n in index.block
      modifies this
      ensures Sound() && n in keyOf && View() == FlatCache.Touch(old(View()), keyOf[n])
      ensures index == old(index).(links := index.links) && at == old(at) && keyOf == old(keyOf) && |order| == |old(order)|
      ensures NoDeadLeaf(old(index), old(keyOf), None) ==> NoDeadLeaf(index, keyOf, None)
    {
      ghost var i := ListedAt(index, at, keyOf, order, size, n);
      TouchIndexOk(index, at, keyOf, order, size, i);
      hide IndexOk, FlatOf;
      index := index.(links := TouchNode(index.links, n));
      order := order[..i] + order[i + 1..] + [order[i]];
    }

    /** The searchable child sharing most of the next page with the prompt, found from the page's two neighbours. */
    method SearchLevel(n: nat, prompt: seq<Token>, length: nat, ghost f: Flat, ghost path: seq<Key>) returns (found: Option<nat>, matched: nat)
      requires Sound() && AtNode(keyOf, n, prompt, length, size) && length + 1 < |prompt| && View().entries == f.entries
      ensures found.None? ==> After(path, f.entries.Keys, prompt, length, size, false) == After(path, f.entries.Keys, prompt, length, size, true)
      ensures found.Some? ==>
        && found.value in keyOf && found.value in index.block && matched > 0
        && StepTaken(f, path, keyOf, found.value, index.block[found.value], prompt, length, size, matched)
    {
      NodeOf(index, at, keyOf, order, size, n);
      hide IndexOk, FlatOf, StepTaken, After, AtNode, Neighbours, Winner, Lcp, TreeOk, Entries;
      var page := NextPage(prompt, length, size);
      var left, right := FindNeighbours(index.shape.available[n].Keys, page);
      var best;
      best, matched := Consider(page, left, right);
      ReuseStep(index, at, keyOf, order, size, n, prompt, length, left, right, f, path);
      found := if best.Some? then Some(index.shape.available[n][best.value]) else None;
    }

    /** The longest cached prefix of the prompt, its last token excepted: the pages, leased for the caller, and its length. */
    method Reuse(prompt: seq<Token>, ghost others: multiset<nat>) returns (blocks: seq<nat>, length: nat)
      requires Valid() && StockOk(ViewStock(), capacity, others)
      modifies this, pool
      ensures Valid()
      ensures capacity == 0 ==> ViewStock() == old(ViewStock()) && blocks == [] && length == 0
      ensures capacity > 0 ==>
        var m := Lookup(old(View()).entries.Keys, prompt, 0, size);
        && blocks == FoundBlocks(old(View()), m.path) && length == m.length
        && View() == TouchAll(old(View()), m.path) && pool.View() == RetainAll(old(pool.View()), blocks)
    {
      hide IndexOk, FlatOf, NoDeadLeaf, TouchAll, Lookup, StockOk, FoundBlocks;
      blocks, length := [], 0;
      if capacity == 0 {
        return;
      }
      var n, done := Root, false;
      ghost var f := View();
      ghost var path: seq<Key> := [];
      StartReuse(index, at, keyOf, order, size);
      while !done && length + 1 < |prompt|
        invariant Valid() && View() == TouchAll(f, path) && View().entries == f.entries
        invariant blocks == FoundBlocks(f, path) && forall i :: 0 <= i < |path| ==> path[i] in f.entries
        invariant Lookup(f.entries.Keys, prompt, 0, size) == After(path, f.entries.Keys, prompt, length, size, done)
        invariant !done ==> AtNode(keyOf, n, prompt, length, size)
        invariant pool.View() == old(pool.View())
        decreases !done, |prompt| - length
      {
        var found, matched := SearchLevel(n, prompt, length, f, path);
        if found.None? {
          done := true;
        } else {
          path, blocks := path + [keyOf[found.value]], blocks + [index.block[found.value]];
          Touch(found.value);
          n, done, length := found.value, matched != size, length + matched;
        }
      }
      EndReuse(f, path, prompt, length, size, done);
      FoundWithin(pool.View(), f, capacity, others, path);
      RetainTable(pool, blocks);
    }

    /** The live node with the least name after that of `n`. */
    method Successor(n: nat) returns (r: Option<nat>)
      requires Sound() && n in keyOf
      ensures NodeSuccessor(at, keyOf, keyOf[n], r)
    {
      hide IndexOk, TreeOk, Standing, Exhausted, InSubtree, IsLeastAhead, IsSuccessor;
      NodeOf(index, at, keyOf, order, size, n);
      WalkFrom(index.shape, index.block, at, keyOf, size, n);
      var f := LeastAhead(index.shape.children[n].Keys, None);
      if f.Some? {
        LeastInside(index.shape.children[n].Keys, None, f.value);
        FirstStanding(index.shape, index.block, at, keyOf, size, n, f.value);
        NextFound(index.shape, index.block, at, keyOf, size, n, keyOf[n], None, f.value);
        return Some(index.shape.children[n][f.value]);
      }
      EdgesEmpty(index.shape.children[n]);
      ChildlessExhausted(index.shape, index.block, at, keyOf, size, n);
      var m := n;
      while m != Root
        invariant m in keyOf && InSubtree(keyOf[m], keyOf[n], size) && Exhausted(at, keyOf[m], keyOf[n], size)
        decreases |keyOf[m]|
      {
        ParentStanding(index.shape, index.block, at, keyOf, size, m, keyOf[n]);
        var p := index.shape.parent[m];
        var g := LeastAhead(index.shape.children[p].Keys, Some(index.shape.edge[m]));
        if g.Some? {
          LeastInside(index.shape.children[p].Keys, Some(index.shape.edge[m]), g.value);
          NextFound(index.shape, index.block, at, keyOf, size, p, keyOf[n], Some(index.shape.edge[m]), g.value);
          return Some(index.shape.children[p][g.value]);
        }
        NextNone(index.shape, index.block, at, keyOf, size, p, keyOf[n], Some(index.shape.edge[m]));
        m := p;
      }
      RootExhausted(index.shape, index.block, at, keyOf, size, keyOf[n]);
      r := None;
    }

    /** Visits every node in name order and gives up every lease; only the root is left. */
    method Clear(ghost others: multiset<nat>)
      requires Valid() && StockOk(ViewStock(), capacity, others)
      modifies this, pool
      ensures Valid() && View() == Flat(map[], []) && index.shape.nodes == 0 && index.publication == [] && index.spare == None
      ensures StockOk(ViewStock(), capacity, others) && |pool.references| == |old(pool.references)|
    {
      hide IndexOk, FlatOf, NoDeadLeaf, StockOk, Unref, NodeSuccessor, NoneBefore, Unvisited, HintCut, Forgets, LosesPrefixes, Without, Named;
      StartReuse(index, at, keyOf, order, size);
      var node := Successor(Root);
      WalkStart(index, at, keyOf, order, size, node);
      while node.Some?
        invariant Valid() && StockOk(ViewStock(), capacity, others) && NoneBefore(index.block, keyOf, node)
        invariant |pool.references| == |old(pool.references)|
        decreases |Unvisited(at, keyOf, node)|
      {
        node := VisitNode(node.value, others);
      }
      EndWalk(index, at, keyOf, order, size);
      index := index.(publication := [], spare := None);
    }

    /** Gives up the lease of `n`, if any, and moves on to the next node. */
    method VisitNode(n: nat, ghost others: multiset<nat>) returns (next: Option<nat>)
      requires Valid() && StockOk(ViewStock(), capacity, others) && NoneBefore(index.block, keyOf, Some(n))
      modifies this, pool
      ensures Valid() && StockOk(ViewStock(), capacity, others) && NoneBefore(index.block, keyOf, next)
      ensures |Unvisited(at, keyOf, next)| < |Unvisited(old(at), old(keyOf), Some(n))|
      ensures |pool.references| == |old(pool.references)|
    {
      hide IndexOk, FlatOf, NoDeadLeaf, StockOk, Unref, NodeSuccessor, NoneBefore, Unvisited, HintCut, Forgets, LosesPrefixes, Without, Named;
      VisitsLive(index.block, keyOf, n);
      next := Successor(n);
      NamesOf(index, at, keyOf, order, size);
      StartPrune(index, at, keyOf, order, size, n);
      if n in index.block {
        ghost var i := ListedAt(index, at, keyOf, order, size, n);
        LeaseHeld(index, at, keyOf, order, size, pool.View(), capacity, others, n);
        DropNode(n, None, i);
        NamesOf(index, at, keyOf, order, size);
      }
      WalkStep(old(at), old(keyOf), old(index.block), at, keyOf, index.block, n, next);
      SmallerSet(Unvisited(at, keyOf, next), Unvisited(old(at), old(keyOf), Some(n)));
    }

    /** The child of `n` on edge `e`, grown if there is none. Nothing visible changes. */
    method FindOrGrow(n: nat, e: Page) returns (node: nat)
      requires Sound() && NoDeadLeaf(index, keyOf, None) && n in keyOf && IsEdge(keyOf[n], e, size)
      modifies this
      ensures Sound() && View() == old(View()) && order == old(order) && index.block == old(index.block)
      ensures NoDeadLeaf(index, keyOf, Some(node)) && Forgets(keyOf, old(keyOf))
      ensures NodeNamed(keyOf, node, old(keyOf)[n] + e) && node != Root && index.publication == old(index.publication)
    {
      hide IndexOk, FlatOf, NoDeadLeaf, IsEdge, Grow, TakenNode, Forgets;
      ChildNode(index, at, keyOf, order, size, n, e);
      if e in index.shape.children[n] {
        node := index.shape.children[n][e];
        WeakenDead(index, keyOf, node);
      } else {
        GrowOk(index, at, keyOf, order, size, n, e);
        GrownNamed(index, at, keyOf, order, size, n, e);
        node := TakenNode(index);
        index := Grow(index, n, e);
        at, keyOf := at[keyOf[n] + e := node], keyOf[node := keyOf[n] + e];
      }
    }

    /** The child of `n` on edge `e`: the hinted node if it is that child, else found or grown. */
    method SelectNode(n: nat, e: Page, i: nat) returns (node: nat)
      requires Sound() && NoDeadLeaf(index, keyOf, None) && n in keyOf && IsEdge(keyOf[n], e, size) && i <= |index.publication|
      modifies this
      ensures Sound() && View() == old(View()) && order == old(order) && index.block == old(index.block)
      ensures NoDeadLeaf(index, keyOf, Some(node)) && Forgets(keyOf, old(keyOf))
      ensures NodeNamed(keyOf, node, old(keyOf)[n] + e) && node != Root
      ensures HintAim(old(index.publication), index.publication, i, node)
    {
      hide IndexOk, FlatOf, NoDeadLeaf, IsEdge, Forgets;
      if i < |index.publication| {
        HintNode(index, at, keyOf, order, size, n, e, i);
        var hint := index.publication[i];
        if index.shape.parent[hint] == n && index.shape.edge[hint] == e {
          WeakenDead(index, keyOf, hint);
          return hint;
        }
        WeakenNone(index, keyOf, index.publication[..i]);
        index := index.(publication := index.publication[..i]);
      }
      node := FindOrGrow(n, e);
    }

    /** Leases `page` for an unleased node as the newest entry. */
    method LeaseNewest(node: nat, page: nat)
      requires Sound() && NoDeadLeaf(index, keyOf, Some(node)) && node in keyOf && node != Root && node !in index.block
      modifies this
      ensures Sound() && NoDeadLeaf(index, keyOf, None) && node in index.block
      ensures View() == Flat(old(View()).entries[keyOf[node] := page], old(View()).lru + [keyOf[node]])
      ensures keyOf == old(keyOf) && index.publication == old(index.publication)
    {
      hide IndexOk, FlatOf, NoDeadLeaf, Append, Offer;
      LeaseOk(index, at, keyOf, order, size, node, page);
      LeaseDead(index, keyOf, node, page);
      index, order := Lease(index, node, page), order + [node];
    }

    /** Drops the oldest lease from a full cache, keeping the selected node. */
    method MakeRoom(node: nat, ghost others: multiset<nat>, ghost p: Pool, ghost page: nat)
      requires Sound() && NoDeadLeaf(index, keyOf, Some(node)) && node in keyOf && node !in index.block && capacity > 0
      requires StockOk(Stock(p, View()), capacity, others) && pool.View() == Retain(p, page)
      modifies this, pool
      ensures Sound() && NoDeadLeaf(index, keyOf, Some(node)) && node in keyOf && node !in index.block
      ensures ViewStock() == if |old(View()).lru| == capacity then Evict(old(ViewStock())) else old(ViewStock())
      ensures Forgets(old(keyOf), keyOf) && HintCut(old(index.publication), index.publication, keyOf)
    {
      OldestNode(index, at, keyOf, order, size);
      LinkedCount(index, at, keyOf, order, size);
      StartPrune(index, at, keyOf, order, size, node);
      hide IndexOk, FlatOf, NoDeadLeaf, StockOk, Unref, Retain, Forgets, HintCut, Without;
      if index.links.cached == capacity {
        EvictReady(Stock(p, View()), capacity, others, page);
        DropNode(index.links.oldest.value, Some(node), 0);
      }
    }

    /** Leases `page` for the selected node, first dropping the oldest lease from a full cache. */
    method LeaseSelected(node: nat, page: nat, ghost others: multiset<nat>)
      requires Sound() && NoDeadLeaf(index, keyOf, Some(node)) && node in keyOf && node != Root && node !in index.block
      requires StockOk(ViewStock(), capacity, others) && page in others && capacity > 0
      modifies this, pool
      ensures Sound() && NoDeadLeaf(index, keyOf, None)
      ensures ViewStock() == PublishPage(old(ViewStock()), capacity, old(keyOf)[node], page)
      ensures node in keyOf && node in index.block && Forgets(old(keyOf), keyOf)
      ensures HintCut(old(index.publication), index.publication, keyOf)
    {
      ghost var s := ViewStock();
      RetainReady(s, capacity, others, page);
      LeasedIff(index, at, keyOf, order, size, node);
      hide IndexOk, FlatOf, NoDeadLeaf, StockOk, Evict, Retain, HintCut;
      pool.RetainPage(page);
      MakeRoom(node, others, s.pool, page);
      LeaseNewest(node, page);
    }

    /** Leases the pages of a sequence, oldest page first, along one root path. */
    method Publish(tokens: seq<Token>, table: seq<nat>, ghost others: multiset<nat>)
      requires Valid() && StockOk(ViewStock(), capacity, others) && forall j :: 0 <= j < |table| ==> table[j] in others
      modifies this, pool
      ensures Valid() && ViewStock() == FlatCache.Publish(old(ViewStock()), capacity, size, tokens, table)
      ensures |index.publication| == PublishCount(tokens, table, size, capacity)
      ensures PathAt(index.publication, keyOf, tokens, size, |index.publication|)
    {
      hide IndexOk, FlatOf, NoDeadLeaf, StockOk, PageCount, PublishCount, PublishPages, PageKey, Forgets, HintCut;
      var count := PublishCount(tokens, table, size, capacity);
      var n, i := Root, 0;
      ghost var s := ViewStock();
      StartPublish(index, at, keyOf, order, s, capacity, size, tokens, table);
      while i < count
        invariant i <= count && Sound() && NoDeadLeaf(index, keyOf, None)
        invariant StockOk(ViewStock(), capacity, others) && ViewStock() == PublishPages(s, capacity, size, tokens, table, i)
        invariant PathAt(index.publication, keyOf, tokens, size, i) && PathEnd(n, keyOf, tokens, size, i)
      {
        PublishPagesStep(s, capacity, size, tokens, table, i, others);
        n := PublishOne(n, i, tokens, table[i], others);
        i := i + 1;
      }
      EndPublish(index, at, keyOf, order, size, count, capacity, others, pool.View());
      PathAtCut(index.publication, keyOf, tokens, size, count);
      index := index.(publication := index.publication[..count]);
    }

    /** Page `i` of a publication, below the path of the pages before it. */
    method PublishOne(n: nat, i: nat, tokens: seq<Token>, page: nat, ghost others: multiset<nat>) returns (node: nat)
      requires Sound() && NoDeadLeaf(index, keyOf, None) && StockOk(ViewStock(), capacity, others)
      requires i < PageCount(|tokens|, size) && i < capacity && page in others
      requires PathAt(index.publication, keyOf, tokens, size, i) && PathEnd(n, keyOf, tokens, size, i)
      requires Newest(View().lru, PathKeys(tokens, size, i))
      modifies this, pool
      ensures Sound() && NoDeadLeaf(index, keyOf, None)
      ensures ViewStock() == PublishPage(old(ViewStock()), capacity, PageKey(tokens, i, size), page)
      ensures PathAt(index.publication, keyOf, tokens, size, i + 1) && PathEnd(node, keyOf, tokens, size, i + 1)
    {
      hide IndexOk, FlatOf, NoDeadLeaf, StockOk, PageCount, PageKey, Forgets, HintCut, HintAim, PublishPage, Newest, IsEdge, PathAt;
      PageSplits(tokens, i, size);
      PathReady(index.publication, keyOf, tokens, size, i);
      ghost var s, key, hint, names := ViewStock(), PageKey(tokens, i, size), index.publication, keyOf;
      node := SelectNode(n, PageOf(tokens, i, size), i);
      AimPath(hint, index.publication, i, node, names, keyOf, tokens, size);
      LeasedIff(index, at, keyOf, order, size, node);
      PublishedPath(s, capacity, others, page, tokens, size, i);
      ghost var mid, midAt, midKeys, midOrder := index, at, keyOf, order;
      StartPrune(index, at, keyOf, order, size, node);
      if node in index.block {
        StrengthenDead(index, keyOf, node);
        Touch(node);
        PublishTouch(s, capacity, key, page);
      } else {
        LeaseSelected(node, page, others);
      }
      KeepPath(mid, midAt, midKeys, midOrder, index, at, keyOf, order, size, tokens, i, node);
      if |index.publication| == i {
        PushHint(index, at, keyOf, order, size, node, tokens, i);
        index := index.(publication := index.publication + [node]);
      }
    }
  }

  // ---- Clearing ----

  lemma SmallerSet(a: set<Key>, b: set<Key>)
    requires a < b
    ensures |a| < |b|
  {
    assert b == a + (b - a);
  }

  lemma LeastInside(edges: set<Page>, bound: Option<Page>, f: Page)
    requires IsLeastAhead(edges, bound, Some(f))
    ensures f in edges
  {
  }

  lemma WalkFrom(sh: Shape, block: map<nat, nat>, at: map<Key, nat>, keyOf: map<nat, Key>, size: nat, n: nat)
    requires size > 0 && TreeOk(sh, block, at, keyOf, size) && n in keyOf
    ensures n in sh.children && InSubtree(keyOf[n], keyOf[n], size) && Root in keyOf
  {
    hide IsEdge;
    LiveNode(sh, block, at, keyOf, size, n);
    RootName(sh, block, at, keyOf, size);
  }

  lemma FirstStanding(sh: Shape, block: map<nat, nat>, at: map<Key, nat>, keyOf: map<nat, Key>, size: nat, n: nat, f: Page)
    requires size > 0 && TreeOk(sh, block, at, keyOf, size) && n in keyOf && n in sh.children && f in sh.children[n]
    ensures Standing(at, keyOf[n], keyOf[n], None, size)
  {
    EdgeChild(sh, block, at, keyOf, size, n, f);
  }

  lemma EdgesEmpty(edges: map<Page, nat>)
    ensures IsLeastAhead(edges.Keys, None, None) ==> edges == map[]
  {
    assert forall f :: Ahead(f, None);
  }

  /** No leased node is named before `k`. */
  ghost predicate NoneBefore(block: map<nat, nat>, keyOf: map<nat, Key>, node: Option<nat>) {
    && (node.Some? ==> node.value in keyOf && forall x :: x in block && x in keyOf ==> !Less(keyOf[x], keyOf[node.value]))
    && (node.None? ==> forall x :: x in block ==> x !in keyOf)
  }

  lemma VisitsLive(block: map<nat, nat>, keyOf: map<nat, Key>, n: nat)
    requires NoneBefore(block, keyOf, Some(n))
    ensures n in keyOf
  {
  }

  /** Names still to be visited. */
  ghost function Unvisited(at: map<Key, nat>, keyOf: map<nat, Key>, node: Option<nat>): set<Key> {
    if node.Some? && node.value in keyOf then set k | k in at && !Less(k, keyOf[node.value]) else {}
  }

  ghost predicate NodeSuccessor(at: map<Key, nat>, keyOf: map<nat, Key>, k: Key, r: Option<nat>) {
    && (r.Some? ==> r.value in keyOf)
    && IsSuccessor(at, k, if r.Some? && r.value in keyOf then Some(keyOf[r.value]) else None)
  }

  lemma WalkStart(ix: Index, at: map<Key, nat>, keyOf: map<nat, Key>, order: seq<nat>, size: nat, r: Option<nat>)
    requires size > 0 && IndexOk(ix, at, keyOf, order, size) && NodeSuccessor(at, keyOf, [], r)
    ensures NoneBefore(ix.block, keyOf, r)
  {
    hide Upward, Downward, Searchable, Linked, HintOk, AddressesOk, Less;
    forall x | x in ix.block && x in keyOf ensures Less([], keyOf[x]) && keyOf[x] in at {
      LiveNode(ix.shape, ix.block, at, keyOf, size, x);
      PrefixNotLess([], keyOf[x]);
    }
  }

  /** The next node survives the drop of the current one and everything leased lies at or after it. */
  lemma WalkStep(at: map<Key, nat>, keyOf: map<nat, Key>, block: map<nat, nat>, at': map<Key, nat>, keyOf': map<nat, Key>, block': map<nat, nat>,
                 node: nat, next: Option<nat>)
    requires Named(at, keyOf) && Named(at', keyOf') && Forgets(keyOf, keyOf') && node in keyOf && LosesPrefixes(keyOf, keyOf', keyOf[node])
    requires NoneBefore(block, keyOf, Some(node)) && NodeSuccessor(at, keyOf, keyOf[node], next) && block' == block - {node}
    ensures NoneBefore(block', keyOf', next)
    ensures Unvisited(at', keyOf', next) < Unvisited(at, keyOf, Some(node))
  {
    hide Less;
    var k := keyOf[node];
    LessTotal(k, k);
    forall x | x in block' && x in keyOf' ensures Less(k, keyOf[x]) && keyOf[x] in at {
      LessTotal(k, keyOf[x]);
    }
    if next.Some? {
      NextSurvives(keyOf, keyOf', k, next.value);
    }
    forall y | y in Unvisited(at', keyOf', next) ensures y in Unvisited(at, keyOf, Some(node)) {
      LaterUnvisited(y, k, keyOf[next.value]);
      assert at'[y] in keyOf';
    }
    assert k in Unvisited(at, keyOf, Some(node)) && k !in Unvisited(at', keyOf', next);
  }

  lemma NextSurvives(keyOf: map<nat, Key>, keyOf': map<nat, Key>, k: Key, next: nat)
    requires LosesPrefixes(keyOf, keyOf', k) && next in keyOf && Less(k, keyOf[next])
    ensures next in keyOf'
  {
    if keyOf[next] <= k {
      PrefixNotLess(keyOf[next], k);
    }
  }

  lemma LaterUnvisited(y: Key, k: Key, next: Key)
    requires Less(k, next) && !Less(y, next)
    ensures !Less(y, k)
  {
    if Less(y, k) {
      LessTransitive(y, k, next);
    }
  }

  lemma LeaseHeld(ix: Index, at: map<Key, nat>, keyOf: map<nat, Key>, order: seq<nat>, size: nat, p: Pool, capacity: nat, others: multiset<nat>, n: nat)
    requires size > 0 && IndexOk(ix, at, keyOf, order, size) && n in ix.block && n in keyOf
    requires StockOk(Stock(p, FlatOf(ix, at, keyOf, order)), capacity, others)
    ensures ix.block[n] < |p.refs| && p.refs[ix.block[n]] > 0
    ensures var f := FlatOf(ix, at, keyOf, order);
      StockOk(Stock(Unref(p, ix.block[n]), Flat(f.entries - {keyOf[n]}, Without(f.lru, keyOf[n]))), capacity, others)
  {
    hide Upward, Downward, Searchable, Linked, HintOk, AddressesOk, StockOk, Without, Unref;
    DropLeaseOk(Stock(p, FlatOf(ix, at, keyOf, order)), capacity, others, keyOf[n]);
  }

  lemma EndWalk(ix: Index, at: map<Key, nat>, keyOf: map<nat, Key>, order: seq<nat>, size: nat)
    requires size > 0 && IndexOk(ix, at, keyOf, order, size) && NoDeadLeaf(ix, keyOf, None) && NoneBefore(ix.block, keyOf, None)
    ensures var t := ix.(publication := [], spare := None);
      && IndexOk(t, at, keyOf, order, size) && NoDeadLeaf(t, keyOf, None)
      && FlatOf(t, at, keyOf, order) == FlatOf(ix, at, keyOf, order) == Flat(map[], []) && order == [] && t.shape.nodes == 0 && t.links.cached == 0
  {
    assert ix.block == map[];
    OnlyRoot(ix, at, keyOf, order, size);
    assert |FlatOf(ix, at, keyOf, order).lru| == |order|;
    assert FlatOf(ix.(publication := [], spare := None), at, keyOf, order) == FlatOf(ix, at, keyOf, order);
    WeakenNone(ix, keyOf, []);
    hide TreeOk, FlatOf;
    forall x: nat ensures DeadLeaf(ix.(publication := [], spare := None), keyOf, x) ==> DeadLeaf(ix, keyOf, x) {
    }
  }

  lemma NamesOf(ix: Index, at: map<Key, nat>, keyOf: map<nat, Key>, order: seq<nat>, size: nat)
    requires size > 0 && IndexOk(ix, at, keyOf, order, size)
    ensures Named(at, keyOf)
  {
  }

  // ---- Publication ----

  /** The hint is kept up to `i` and continues, if at all, with `node`. */
  ghost predicate HintAim(hint: seq<nat>, aimed: seq<nat>, i: nat, node: nat) {
    i <= |hint| && i <= |aimed| && aimed[..i] == hint[..i] && (|aimed| > i ==> aimed[i] == node)
  }

  /** The first `i` hinted nodes are live and name the first `i` pages. */
  ghost predicate PathAt(hint: seq<nat>, keyOf: map<nat, Key>, tokens: seq<Token>, size: nat, i: nat) {
    i <= |hint| && forall j :: 0 <= j < i ==> NodeNamed(keyOf, hint[j], PageKey(tokens, j, size))
  }

  ghost predicate NodeNamed(keyOf: map<nat, Key>, n: nat, k: Key) {
    n in keyOf && keyOf[n] == k
  }

  ghost predicate PathEnd(n: nat, keyOf: map<nat, Key>, tokens: seq<Token>, size: nat, i: nat) {
    NodeNamed(keyOf, n, if i == 0 then [] else PageKey(tokens, i - 1, size))
  }

  /** The tokens of page `i`. */
  function PageOf(tokens: seq<Token>, i: nat, size: nat): Page
    requires i * size <= |tokens|
  {
    if i * size + size <= |tokens| then tokens[i * size..i * size + size] else tokens[i * size..]
  }

  lemma PageSplits(tokens: seq<Token>, i: nat, size: nat)
    requires size > 0 && i < PageCount(|tokens|, size)
    ensures i * size < |tokens|
    ensures var k := if i == 0 then [] else PageKey(tokens, i - 1, size);
      && k + PageOf(tokens, i, size) == PageKey(tokens, i, size) && IsEdge(k, PageOf(tokens, i, size), size)
      && PageKey(tokens, i, size) != [] && ParentKey(PageKey(tokens, i, size), size) == k
  {
    PageStartsInside(i, |tokens|, size);
    MulMonotone(i, i, size);
    MultipleOfSize(i, size);
    hide PageCount;
    var k := if i == 0 then [] else PageKey(tokens, i - 1, size);
    assert k == tokens[..i * size] by {
      if i > 0 {
        MulMonotone(i - 1, i, size);
      }
    }
    assert k + PageOf(tokens, i, size) == PageKey(tokens, i, size);
    EdgeKey(k, PageOf(tokens, i, size), size);
  }

  lemma PathReady(hint: seq<nat>, keyOf: map<nat, Key>, tokens: seq<Token>, size: nat, i: nat)
    requires PathAt(hint, keyOf, tokens, size, i)
    ensures i <= |hint|
  {
  }

  lemma WeakenDead(ix: Index, keyOf: map<nat, Key>, n: nat)
    requires NoDeadLeaf(ix, keyOf, None)
    ensures NoDeadLeaf(ix, keyOf, Some(n))
  {
  }

  lemma StrengthenDead(ix: Index, keyOf: map<nat, Key>, n: nat)
    requires NoDeadLeaf(ix, keyOf, Some(n)) && n in ix.block
    ensures NoDeadLeaf(ix, keyOf, None)
  {
    forall x: nat ensures DeadLeaf(ix, keyOf, x) ==> x != n {
    }
  }

  lemma HintNode(ix: Index, at: map<Key, nat>, keyOf: map<nat, Key>, order: seq<nat>, size: nat, n: nat, e: Page, i: nat)
    requires size > 0 && IndexOk(ix, at, keyOf, order, size) && i < |ix.publication| && n in keyOf
    ensures var hint := ix.publication[i];
      && hint in ix.shape.parent && hint in ix.shape.edge && hint in keyOf && hint != Root
      && (ix.shape.parent[hint] == n && ix.shape.edge[hint] == e ==> keyOf[hint] == keyOf[n] + e)
    ensures Forgets(keyOf, keyOf) && IndexOk(ix.(publication := ix.publication[..i]), at, keyOf, order, size)
    ensures FlatOf(ix.(publication := ix.publication[..i]), at, keyOf, order) == FlatOf(ix, at, keyOf, order)
  {
    hide TreeOk, IsEdge, Linked, Leases;
    assert HintAt(ix.publication, ix.shape.parent, keyOf, i);
    LiveNode(ix.shape, ix.block, at, keyOf, size, ix.publication[i]);
    var h := ix.publication[..i];
    forall j | 0 <= j < |h| ensures HintAt(h, ix.shape.parent, keyOf, j) {
      assert HintAt(ix.publication, ix.shape.parent, keyOf, j);
    }
  }

  lemma ChildNode(ix: Index, at: map<Key, nat>, keyOf: map<nat, Key>, order: seq<nat>, size: nat, n: nat, e: Page)
    requires size > 0 && IndexOk(ix, at, keyOf, order, size) && n in keyOf && IsEdge(keyOf[n], e, size)
    ensures n in ix.shape.children
    ensures e in ix.shape.children[n] ==>
      var c := ix.shape.children[n][e]; c in keyOf && c != Root && keyOf[c] == keyOf[n] + e
    ensures e !in ix.shape.children[n] ==> keyOf[n] + e !in at
    ensures Forgets(keyOf, keyOf)
  {
    LiveNode(ix.shape, ix.block, at, keyOf, size, n);
    RootName(ix.shape, ix.block, at, keyOf, size);
    assert NodeDown(ix.shape.children[n], at, keyOf[n], size);
    hide Upward, Searchable, Linked, Leases, HintOk, AddressesOk;
  }

  lemma GrowDead(ix: Index, keyOf: map<nat, Key>, p: nat, e: Page, k: Key)
    requires p in ix.shape.children && p in ix.shape.depth && NoDeadLeaf(ix, keyOf, None) && TakenNode(ix) !in keyOf
    ensures NoDeadLeaf(Grow(ix, p, e), keyOf[TakenNode(ix) := k], Some(TakenNode(ix)))
    ensures Forgets(keyOf[TakenNode(ix) := k], keyOf) && Grow(ix, p, e).publication == ix.publication && Grow(ix, p, e).block == ix.block
  {
    var n, t, more := TakenNode(ix), Grow(ix, p, e), keyOf[TakenNode(ix) := k];
    forall x: nat | DeadLeaf(t, more, x) ensures Some(n) == Some(x) {
      if x != n {
        assert t.shape.children[p] == AddEdge(TakeNode(ix).shape.children[p], e, n);
        assert e in t.shape.children[p];
        assert DeadLeaf(ix, keyOf, x);
      }
    }
  }

  lemma GrownNamed(ix: Index, at: map<Key, nat>, keyOf: map<nat, Key>, order: seq<nat>, size: nat, p: nat, e: Page)
    requires size > 0 && IndexOk(ix, at, keyOf, order, size) && p in keyOf && p in ix.shape.children && p in ix.shape.depth
    requires NoDeadLeaf(ix, keyOf, None) && TakenNode(ix) !in keyOf
    ensures var n, k := TakenNode(ix), keyOf[p] + e;
      && NoDeadLeaf(Grow(ix, p, e), keyOf[n := k], Some(n)) && Forgets(keyOf[n := k], keyOf) && n != Root
      && Grow(ix, p, e).publication == ix.publication && Grow(ix, p, e).block == ix.block
  {
    RootName(ix.shape, ix.block, at, keyOf, size);
    hide IndexOk;
    GrowDead(ix, keyOf, p, e, keyOf[p] + e);
  }

  lemma LinkedCount(ix: Index, at: map<Key, nat>, keyOf: map<nat, Key>, order: seq<nat>, size: nat)
    requires size > 0 && IndexOk(ix, at, keyOf, order, size)
    ensures ix.links.cached == |order|
  {
  }

  lemma RetainReady(s: Stock, capacity: nat, others: multiset<nat>, page: nat)
    requires StockOk(s, capacity, others) && page in others
    ensures page < |s.pool.refs|
  {
    assert page in others + Leased(s.cache.entries);
  }

  lemma EvictReady(s: Stock, capacity: nat, others: multiset<nat>, page: nat)
    requires StockOk(s, capacity, others) && s.cache.lru != []
    ensures s.cache.lru[0] in s.cache.entries
    ensures var b := s.cache.entries[s.cache.lru[0]]; b < |s.pool.refs| && Retain(s.pool, page).refs[b] > 0
    ensures Without(s.cache.lru, s.cache.lru[0]) == s.cache.lru[1..]
  {
    OldestLeased(s.pool, s.cache, capacity, others);
  }

  lemma LeaseDead(ix: Index, keyOf: map<nat, Key>, n: nat, page: nat)
    requires n in ix.shape.parent && n in ix.shape.edge && ix.shape.parent[n] in ix.shape.available
    requires NoDeadLeaf(ix, keyOf, Some(n))
    ensures NoDeadLeaf(Lease(ix, n, page), keyOf, None)
    ensures Lease(ix, n, page).publication == ix.publication
  {
    forall x: nat ensures DeadLeaf(Lease(ix, n, page), keyOf, x) ==> DeadLeaf(ix, keyOf, x) && x != n {
    }
  }

  lemma AimPath(hint: seq<nat>, aimed: seq<nat>, i: nat, node: nat, before: map<nat, Key>, after: map<nat, Key>, tokens: seq<Token>, size: nat)
    requires PathAt(hint, before, tokens, size, i) && HintAim(hint, aimed, i, node) && Forgets(after, before)
    ensures PathAt(aimed, after, tokens, size, i) && HintAim(aimed, aimed, i, node)
  {
    forall j | 0 <= j < i ensures NodeNamed(after, aimed[j], PageKey(tokens, j, size)) {
      assert aimed[j] == aimed[..i][j] == hint[j];
      assert NodeNamed(before, hint[j], PageKey(tokens, j, size));
    }
  }

  lemma LeasedIff(ix: Index, at: map<Key, nat>, keyOf: map<nat, Key>, order: seq<nat>, size: nat, n: nat)
    requires size > 0 && IndexOk(ix, at, keyOf, order, size) && n in keyOf
    ensures n in ix.block <==> keyOf[n] in FlatOf(ix, at, keyOf, order).entries
  {
    hide Upward, Downward, Searchable, Linked, HintOk, AddressesOk;
  }

  lemma PublishedPath(s: Stock, capacity: nat, others: multiset<nat>, page: nat, tokens: seq<Token>, size: nat, i: nat)
    requires StockOk(s, capacity, others) && page in others && size > 0 && i < capacity && i < PageCount(|tokens|, size)
    requires Newest(s.cache.lru, PathKeys(tokens, size, i))
    ensures var t := PublishPage(s, capacity, PageKey(tokens, i, size), page);
      forall j :: 0 <= j <= i ==> PageKey(tokens, j, size) in t.cache.entries
  {
    var key := PageKey(tokens, i, size);
    PathKeysStep(tokens, size, i + 1);
    PublishPageOk(s, capacity, others, key, page);
    PublishPageNewest(s, capacity, others, key, page, PathKeys(tokens, size, i));
    hide PublishPage, PageCount, PageKey;
    NewestLeased(PublishPage(s, capacity, key, page).cache, capacity, tokens, size, i + 1);
  }

  lemma NewestLeased(c: Flat, capacity: nat, tokens: seq<Token>, size: nat, n: nat)
    requires CacheOk(c, capacity) && Newest(c.lru, PathKeys(tokens, size, n))
    ensures forall j :: 0 <= j < n ==> PageKey(tokens, j, size) in c.entries
  {
    hide NoDuplicates, PageKey;
    var path := PathKeys(tokens, size, n);
    forall j | 0 <= j < n ensures PageKey(tokens, j, size) in c.entries {
      assert path[j] == c.lru[|c.lru| - n..][j];
      assert path[j] in c.lru;
    }
  }

  lemma PublishTouch(s: Stock, capacity: nat, key: Key, page: nat)
    requires key in s.cache.entries
    ensures PublishPage(s, capacity, key, page) == s.(cache := FlatCache.Touch(s.cache, key))
  {
  }

  /** Leased nodes keep their address, so the hinted path survives an eviction. */
  lemma KeepPath(ix: Index, at: map<Key, nat>, keyOf: map<nat, Key>, order: seq<nat>,
                 ix': Index, at': map<Key, nat>, keyOf': map<nat, Key>, order': seq<nat>, size: nat, tokens: seq<Token>, i: nat, node: nat)
    requires size > 0 && IndexOk(ix, at, keyOf, order, size) && IndexOk(ix', at', keyOf', order', size)
    requires PathAt(ix.publication, keyOf, tokens, size, i) && HintAim(ix.publication, ix.publication, i, node)
    requires Forgets(keyOf, keyOf') && HintCut(ix.publication, ix'.publication, keyOf') && node in keyOf'
    requires NodeNamed(keyOf, node, PageKey(tokens, i, size))
    requires forall j :: 0 <= j <= i ==> PageKey(tokens, j, size) in FlatOf(ix', at', keyOf', order').entries
    ensures i <= |ix'.publication| && PathAt(ix'.publication, keyOf', tokens, size, if |ix'.publication| == i then i else i + 1)
    ensures NodeNamed(keyOf', node, PageKey(tokens, i, size))
  {
    var h, h' := ix.publication, ix'.publication;
    hide IndexOk, FlatOf, PageKey, Forgets, NodeNamed, HintAim, HintCut;
    Survives(ix, at, keyOf, order, ix', at', keyOf', order', size, node, PageKey(tokens, i, size));
    forall j | 0 <= j < i ensures NodeNamed(keyOf', h[j], PageKey(tokens, j, size)) {
      assert NodeNamed(keyOf, h[j], PageKey(tokens, j, size));
      Survives(ix, at, keyOf, order, ix', at', keyOf', order', size, h[j], PageKey(tokens, j, size));
    }
    CutPath(h, h', keyOf', tokens, size, i, node);
  }

  lemma CutPath(h: seq<nat>, h': seq<nat>, keyOf: map<nat, Key>, tokens: seq<Token>, size: nat, i: nat, node: nat)
    requires i <= |h| && (forall j :: 0 <= j < i ==> NodeNamed(keyOf, h[j], PageKey(tokens, j, size)))
    requires HintAim(h, h, i, node) && HintCut(h, h', keyOf) && NodeNamed(keyOf, node, PageKey(tokens, i, size))
    ensures i <= |h'| && PathAt(h', keyOf, tokens, size, if |h'| == i then i else i + 1)
  {
    hide PageKey;
    assert forall j :: 0 <= j < i ==> h[j] in keyOf;
    assert i <= |h'|;
    forall j | 0 <= j < if |h'| == i then i else i + 1 ensures NodeNamed(keyOf, h'[j], PageKey(tokens, j, size)) {
      assert h'[j] == h[j];
    }
  }

  lemma Survives(ix: Index, at: map<Key, nat>, keyOf: map<nat, Key>, order: seq<nat>,
                 ix': Index, at': map<Key, nat>, keyOf': map<nat, Key>, order': seq<nat>, size: nat, n: nat, k: Key)
    requires size > 0 && IndexOk(ix, at, keyOf, order, size) && IndexOk(ix', at', keyOf', order', size)
    requires Forgets(keyOf, keyOf') && NodeNamed(keyOf, n, k) && k in FlatOf(ix', at', keyOf', order').entries
    ensures NodeNamed(keyOf', n, k)
  {
    hide Upward, Downward, Searchable, Linked, HintOk, AddressesOk, Leases;
    assert at'[k] in keyOf' && keyOf'[at'[k]] == k;
  }

  lemma PushHint(ix: Index, at: map<Key, nat>, keyOf: map<nat, Key>, order: seq<nat>, size: nat, node: nat, tokens: seq<Token>, i: nat)
    requires size > 0 && IndexOk(ix, at, keyOf, order, size) && i < PageCount(|tokens|, size)
    requires PathAt(ix.publication, keyOf, tokens, size, i) && |ix.publication| == i && NodeNamed(keyOf, node, PageKey(tokens, i, size))
    ensures var t := ix.(publication := ix.publication + [node]);
      && IndexOk(t, at, keyOf, order, size) && FlatOf(t, at, keyOf, order) == FlatOf(ix, at, keyOf, order)
      && PathAt(t.publication, keyOf, tokens, size, i + 1)
    ensures NoDeadLeaf(ix, keyOf, None) ==> NoDeadLeaf(ix.(publication := ix.publication + [node]), keyOf, None)
  {
    hide TreeOk, Linked, Leases, PageCount, PageKey, ParentKey;
    var h, parent := ix.publication, ix.shape.parent;
    var t := h + [node];
    PageSplits(tokens, i, size);
    RootName(ix.shape, ix.block, at, keyOf, size);
    ParentNamed(ix.shape, ix.block, at, keyOf, size, node);
    if i > 0 {
      assert NodeNamed(keyOf, h[i - 1], PageKey(tokens, i - 1, size));
      SameName(ix.shape, ix.block, at, keyOf, size, h[i - 1], parent[node]);
    } else {
      SameName(ix.shape, ix.block, at, keyOf, size, Root, parent[node]);
    }
    forall j | 0 <= j < |t| ensures HintAt(t, parent, keyOf, j) {
      if j < i {
        assert HintAt(h, parent, keyOf, j);
      }
    }
    forall j | 0 <= j < i + 1 ensures NodeNamed(keyOf, t[j], PageKey(tokens, j, size)) {
      if j < i {
        assert NodeNamed(keyOf, h[j], PageKey(tokens, j, size));
      }
    }
    if NoDeadLeaf(ix, keyOf, None) {
      WeakenNone(ix, keyOf, t);
    }
  }

  lemma WeakenNone(ix: Index, keyOf: map<nat, Key>, hint: seq<nat>)
    requires NoDeadLeaf(ix, keyOf, None)
    ensures NoDeadLeaf(ix.(publication := hint), keyOf, None)
  {
    forall x: nat ensures DeadLeaf(ix.(publication := hint), keyOf, x) ==> DeadLeaf(ix, keyOf, x) {
    }
  }

  lemma ParentNamed(sh: Shape, block: map<nat, nat>, at: map<Key, nat>, keyOf: map<nat, Key>, size: nat, n: nat)
    requires size > 0 && TreeOk(sh, block, at, keyOf, size) && n in keyOf && keyOf[n] != []
    ensures n != Root && n in sh.parent && sh.parent[n] in keyOf && keyOf[sh.parent[n]] == ParentKey(keyOf[n], size)
  {
    RootName(sh, block, at, keyOf, size);
    LiveNode(sh, block, at, keyOf, size, n);
    EdgeKey(keyOf[sh.parent[n]], sh.edge[n], size);
  }

  lemma SameName(sh: Shape, block: map<nat, nat>, at: map<Key, nat>, keyOf: map<nat, Key>, size: nat, a: nat, b: nat)
    requires size > 0 && TreeOk(sh, block, at, keyOf, size) && a in keyOf && b in keyOf
    ensures keyOf[a] == keyOf[b] ==> a == b
  {
    hide Upward, Downward, Searchable;
  }

  lemma StartPublish(ix: Index, at: map<Key, nat>, keyOf: map<nat, Key>, order: seq<nat>, s: Stock, capacity: nat, size: nat, tokens: seq<Token>, table: seq<nat>)
    requires size > 0 && IndexOk(ix, at, keyOf, order, size)
    ensures PathEnd(Root, keyOf, tokens, size, 0) && PublishPages(s, capacity, size, tokens, table, 0) == s
    ensures PublishCount(tokens, table, size, capacity) <= PageCount(|tokens|, size)
  {
    RootName(ix.shape, ix.block, at, keyOf, size);
  }

  lemma PublishPagesStep(s: Stock, capacity: nat, size: nat, tokens: seq<Token>, table: seq<nat>, i: nat, others: multiset<nat>)
    requires StockOk(s, capacity, others) && size > 0 && i < |table| && i < capacity && i < PageCount(|tokens|, size)
    requires forall j :: 0 <= j < |table| ==> table[j] in others
    ensures Newest(PublishPages(s, capacity, size, tokens, table, i).cache.lru, PathKeys(tokens, size, i))
    ensures PublishPages(s, capacity, size, tokens, table, i + 1) ==
      PublishPage(PublishPages(s, capacity, size, tokens, table, i), capacity, PageKey(tokens, i, size), table[i])
    ensures StockOk(PublishPages(s, capacity, size, tokens, table, i + 1), capacity, others)
  {
    PublishPagesOk(s, capacity, size, others, tokens, table, i);
    PublishPagesOk(s, capacity, size, others, tokens, table, i + 1);
    hide StockOk, PageCount, PageKey, Newest, PublishPage;
  }

  lemma EndPublish(ix: Index, at: map<Key, nat>, keyOf: map<nat, Key>, order: seq<nat>, size: nat, i: nat, capacity: nat, others: multiset<nat>, p: Pool)
    requires size > 0 && IndexOk(ix, at, keyOf, order, size) && i <= |ix.publication| && NoDeadLeaf(ix, keyOf, None)
    requires StockOk(Stock(p, FlatOf(ix, at, keyOf, order)), capacity, others)
    ensures var t := ix.(publication := ix.publication[..i]);
      && IndexOk(t, at, keyOf, order, size) && FlatOf(t, at, keyOf, order) == FlatOf(ix, at, keyOf, order)
      && NoDeadLeaf(t, keyOf, None) && |order| <= capacity
  {
    hide TreeOk, Linked, Leases, Counts;
    WeakenNone(ix, keyOf, ix.publication[..i]);
    var h := ix.publication[..i];
    forall j | 0 <= j < |h| ensures HintAt(h, ix.shape.parent, keyOf, j) {
      assert HintAt(ix.publication, ix.shape.parent, keyOf, j);
    }
  }

  lemma PathAtCut(hint: seq<nat>, keyOf: map<nat, Key>, tokens: seq<Token>, size: nat, i: nat)
    requires PathAt(hint, keyOf, tokens, size, i)
    ensures PathAt(hint[..i], keyOf, tokens, size, i)
  {
    forall j | 0 <= j < i ensures NodeNamed(keyOf, hint[..i][j], PageKey(tokens, j, size)) {
      assert NodeNamed(keyOf, hint[j], PageKey(tokens, j, size));
    }
  }

  // ---- Search ----

  /** The pages found so far followed by what the lookup still finds. */
  ghost function After(path: seq<Key>, keys: set<Key>, prompt: seq<Token>, length: nat, size: nat, done: bool): Match
    requires size > 0
  {
    var rest := if done then Match([], length) else Lookup(keys, prompt, length, size);
    Match(path + rest.path, rest.length)
  }

  ghost predicate AtNode(keyOf: map<nat, Key>, n: nat, prompt: seq<Token>, length: nat, size: nat) {
    size > 0 && n in keyOf && length <= |prompt| && keyOf[n] == prompt[..length] && length % size == 0
  }

  lemma StartReuse(ix: Index, at: map<Key, nat>, keyOf: map<nat, Key>, order: seq<nat>, size: nat)
    requires size > 0 && IndexOk(ix, at, keyOf, order, size)
    ensures Root in keyOf && keyOf[Root] == []
    ensures var f := FlatOf(ix, at, keyOf, order); TouchAll(f, []) == f && FoundBlocks(f, []) == []
  {
    RootName(ix.shape, ix.block, at, keyOf, size);
  }

  lemma EndReuse(f: Flat, path: seq<Key>, prompt: seq<Token>, length: nat, size: nat, done: bool)
    requires size > 0 && (done || length + 1 >= |prompt|)
    ensures After(path, f.entries.Keys, prompt, length, size, done) == Match(path, length)
  {
  }

  lemma NodeOf(ix: Index, at: map<Key, nat>, keyOf: map<nat, Key>, order: seq<nat>, size: nat, n: nat)
    requires size > 0 && IndexOk(ix, at, keyOf, order, size) && n in keyOf
    ensures n in ix.shape.available && TreeOk(ix.shape, ix.block, at, keyOf, size)
    ensures FlatOf(ix, at, keyOf, order).entries == Entries(at, ix.block)
  {
    LiveNode(ix.shape, ix.block, at, keyOf, size, n);
  }

  /** Reads the two neighbours, the lower bound first, and keeps the longer match. */
  method Consider(page: Page, left: Option<Page>, right: Option<Page>) returns (best: Option<Page>, matched: nat)
    ensures best == Winner(page, 0, left, right)
    ensures matched == if best.Some? then Lcp(best.value, page) else 0
  {
    best, matched := None, 0;
    if right.Some? {
      var n := CommonPrefix(right.value, page);
      if n > matched {
        best, matched := right, n;
      }
    }
    if left.Some? {
      var n := CommonPrefix(left.value, page);
      if n > matched {
        best, matched := left, n;
      }
    }
  }

  /** One round of the search: either nothing is left to find, or the winning child continues the path. */
  lemma ReuseStep(ix: Index, at: map<Key, nat>, keyOf: map<nat, Key>, order: seq<nat>, size: nat, n: nat, prompt: seq<Token>, length: nat,
                  left: Option<Page>, right: Option<Page>, f: Flat, path: seq<Key>)
    requires AtNode(keyOf, n, prompt, length, size) && length + 1 < |prompt| && IndexOk(ix, at, keyOf, order, size)
    requires n in ix.shape.available && Neighbours(ix.shape.available[n].Keys, NextPage(prompt, length, size), left, right)
    requires f.entries == Entries(at, ix.block)
    ensures var keys, page := f.entries.Keys, NextPage(prompt, length, size);
      var w := Winner(page, 0, left, right);
      && (w.None? ==> After(path, keys, prompt, length, size, false) == After(path, keys, prompt, length, size, true))
      && (w.Some? ==>
            && w.value in ix.shape.available[n] && Lcp(w.value, page) > 0
            && var found, matched := ix.shape.available[n][w.value], Lcp(w.value, page);
            && found in keyOf && found in ix.block
            && StepTaken(f, path, keyOf, found, ix.block[found], prompt, length, size, matched))
  {
    NodeOf(ix, at, keyOf, order, size, n);
    var page := NextPage(prompt, length, size);
    hide IndexOk, TreeOk, Lookup, Winner, Neighbours, Entries, NextPage, StepTaken, IsEdge, Lcp;
    LevelOutcome(ix, at, keyOf, size, n, prompt, length, left, right);
    var w := Winner(page, 0, left, right);
    if w.Some? {
      WinnerIsNeighbour(ix.shape.available[n].Keys, page, left, right);
      ChildIsEntry(ix, at, keyOf, size, n, w.value);
      EdgeLength(keyOf[n], w.value, size);
      FollowEdge(f, path, keyOf, n, ix.shape.available[n][w.value], w.value, prompt, length, size);
    }
  }

  lemma FollowEdge(f: Flat, path: seq<Key>, keyOf: map<nat, Key>, n: nat, found: nat, e: Page, prompt: seq<Token>, length: nat, size: nat)
    requires AtNode(keyOf, n, prompt, length, size) && length + 1 < |prompt| && |e| <= size
    requires found in keyOf && keyOf[found] == keyOf[n] + e && keyOf[found] in f.entries
    requires Lookup(f.entries.Keys, prompt, length, size) ==
      if Lcp(e, NextPage(prompt, length, size)) == size then
        var rest := Lookup(f.entries.Keys, prompt, length + size, size);
        Match([keyOf[found]] + rest.path, rest.length)
      else Match([keyOf[found]], length + Lcp(e, NextPage(prompt, length, size)))
    ensures StepTaken(f, path, keyOf, found, f.entries[keyOf[found]], prompt, length, size, Lcp(e, NextPage(prompt, length, size)))
  {
    hide Lookup, NextPage, TouchAll, FoundBlocks, FlatCache.Touch, After, Lcp;
    FullPage(keyOf[n], e, prompt, length, size);
    FoundSnoc(f, path, keyOf[found]);
    TouchAllSnoc(f, path, keyOf[found]);
    StepAfter(path, f.entries.Keys, prompt, length, size, keyOf[found], Lcp(e, NextPage(prompt, length, size)));
  }

  /** The whole effect of following one edge. */
  ghost predicate StepTaken(f: Flat, path: seq<Key>, keyOf: map<nat, Key>, found: nat, page: nat, prompt: seq<Token>, length: nat, size: nat, matched: nat)
    requires found in keyOf && size > 0
  {
    var k, keys := keyOf[found], f.entries.Keys;
    && k in f.entries && FoundBlocks(f, path + [k]) == FoundBlocks(f, path) + [page]
    && TouchAll(f, path + [k]) == FlatCache.Touch(TouchAll(f, path), k)
    && After(path, keys, prompt, length, size, false) == After(path + [k], keys, prompt, length + matched, size, matched != size)
    && (matched == size ==> AtNode(keyOf, found, prompt, length + size, size))
  }

  lemma StepAfter(path: seq<Key>, keys: set<Key>, prompt: seq<Token>, length: nat, size: nat, k: Key, matched: nat)
    requires size > 0
    requires Lookup(keys, prompt, length, size) ==
      if matched == size then
        var rest := Lookup(keys, prompt, length + size, size);
        Match([k] + rest.path, rest.length)
      else Match([k], length + matched)
    ensures After(path, keys, prompt, length, size, false) == After(path + [k], keys, prompt, length + matched, size, matched != size)
  {
    hide Lookup;
    if matched == size {
      var rest := Lookup(keys, prompt, length + size, size).path;
      assert path + ([k] + rest) == path + [k] + rest;
    } else {
      assert path + [k] + [] == path + [k];
    }
  }

  lemma FullPage(p: Key, e: Page, prompt: seq<Token>, length: nat, size: nat)
    requires size > 0 && length + 1 < |prompt| && p == prompt[..length] && |e| <= size && length % size == 0
    ensures Lcp(e, NextPage(prompt, length, size)) == size ==>
      length + size <= |prompt| && p + e == prompt[..length + size] && (length + size) % size == 0
  {
    var page := NextPage(prompt, length, size);
    LcpCharacterized(e, page);
    if Lcp(e, page) == size {
      assert e[..size] == e && page[..size] == page;
      NextMultiple(length, size);
    }
  }

  lemma NextMultiple(n: nat, size: nat)
    requires size > 0 && n % size == 0
    ensures (n + size) % size == 0
  {
    DivisionBounds(n, size);
    MulMonotone(n / size, n / size, size);
    MultipleOfSize(n / size + 1, size);
  }

  lemma FoundSnoc(f: Flat, path: seq<Key>, k: Key)
    requires k in f.entries
    ensures FoundBlocks(f, path + [k]) == FoundBlocks(f, path) + [f.entries[k]]
  {
  }

  lemma {:induction false} TouchAllSnoc(f: Flat, path: seq<Key>, k: Key)
    ensures TouchAll(f, path + [k]) == FlatCache.Touch(TouchAll(f, path), k)
    decreases |path|
  {
    if path != [] {
      assert (path + [k])[1..] == path[1..] + [k];
      TouchAllSnoc(FlatCache.Touch(f, path[0]), path[1..], k);
    }
  }

  lemma FoundWithin(p: Pool, f: Flat, capacity: nat, others: multiset<nat>, path: seq<Key>)
    requires StockOk(Stock(p, f), capacity, others) && forall i :: 0 <= i < |path| ==> path[i] in f.entries
    ensures Within(FoundBlocks(f, path), |p.refs|)
  {
    forall i | 0 <= i < |path| ensures f.entries[path[i]] < |p.refs| {
      LeasedMember(f.entries, path[i]);
      assert f.entries[path[i]] in others + Leased(f.entries);
    }
  }

  method RetainTable(pool: KvBlockPool, table: seq<nat>)
    requires Within(table, |pool.references|)
    modifies pool
    ensures pool.View() == RetainAll(old(pool.View()), table)
  {
    var rest := table;
    while rest != []
      invariant Within(rest, |pool.references|)
      invariant RetainAll(pool.View(), rest) == RetainAll(old(pool.View()), table)
      decreases |rest|
    {
      pool.RetainPage(rest[0]);
      rest := rest[1..];
    }
  }

  /** Every leased node is listed. */
  lemma ListedAt(ix: Index, at: map<Key, nat>, keyOf: map<nat, Key>, order: seq<nat>, size: nat, n: nat) returns (i: nat)
    requires size > 0 && IndexOk(ix, at, keyOf, order, size) && n in ix.block
    ensures i < |order| && order[i] == n && n in keyOf && n != Root
  {
    hide TreeOk, Linked, HintOk, AddressesOk;
    assert n in order;
    i :| 0 <= i < |order| && order[i] == n;
  }

  lemma UnleaseDead(ix: Index, keyOf: map<nat, Key>, n: nat, guarded: Option<nat>)
    requires NoDeadLeaf(ix, keyOf, guarded)
    requires n in ix.shape.parent && n in ix.shape.edge && ix.shape.parent[n] in ix.shape.available && ix.links.cached > 0
    ensures DeadOnly(Unlease(ix, n), keyOf, n, guarded)
    ensures Unlease(ix, n).publication == ix.publication
  {
    forall x: nat | DeadLeaf(Unlease(ix, n), keyOf, x) && x != n ensures guarded == Some(x) {
      assert DeadLeaf(ix, keyOf, x);
    }
  }

  /** The head of the list, if any, is the first key of the flat order. */
  lemma OldestNode(ix: Index, at: map<Key, nat>, keyOf: map<nat, Key>, order: seq<nat>, size: nat)
    requires size > 0 && IndexOk(ix, at, keyOf, order, size)
    ensures ix.links.oldest.None? <==> order == []
    ensures |FlatOf(ix, at, keyOf, order).lru| == |order|
    ensures order != [] ==>
      && ix.links.oldest == Some(order[0]) && order[0] in ix.block && order[0] in keyOf
      && var f := FlatOf(ix, at, keyOf, order);
      f.lru[0] == keyOf[order[0]] && f.lru[0] in f.entries && f.entries[f.lru[0]] == ix.block[order[0]]
  {
    if order != [] {
      assert order[0] in order;
    }
    hide Upward, Downward, Searchable, HintOk, AddressesOk;
  }

  lemma OldestLeased(p: Pool, c: Flat, capacity: nat, others: multiset<nat>)
    requires StockOk(Stock(p, c), capacity, others) && c.lru != []
    ensures c.lru[0] in c.entries && c.entries[c.lru[0]] < |p.refs| && p.refs[c.entries[c.lru[0]]] > 0
  {
    assert c.lru[0] in c.lru;
    LeasedMember(c.entries, c.lru[0]);
    assert c.entries[c.lru[0]] in others + Leased(c.entries);
  }

  lemma StartPrune(ix: Index, at: map<Key, nat>, keyOf: map<nat, Key>, order: seq<nat>, size: nat, n: nat)
    requires size > 0 && IndexOk(ix, at, keyOf, order, size) && n in keyOf
    ensures n in ix.shape.children && Forgets(keyOf, keyOf) && HintCut(ix.publication, ix.publication, keyOf)
    ensures LosesPrefixes(keyOf, keyOf, keyOf[n])
  {
    LiveNode(ix.shape, ix.block, at, keyOf, size, n);
  }

  /** Only nodes named by prefixes of `k` are forgotten. */
  ghost predicate LosesPrefixes(before: map<nat, Key>, after: map<nat, Key>, k: Key) {
    forall n :: n in before && n !in after ==> before[n] <= k
  }

  lemma PruneLoss(ix: Index, at: map<Key, nat>, keyOf: map<nat, Key>, order: seq<nat>, size: nat, n: nat, before: map<nat, Key>, k: Key)
    requires size > 0 && IndexOk(ix, at, keyOf, order, size) && n in keyOf && n != Root
    requires Forgets(before, keyOf) && LosesPrefixes(before, keyOf, k) && keyOf[n] <= k
    ensures n in ix.shape.parent && ix.shape.parent[n] in keyOf && keyOf[ix.shape.parent[n]] <= k
    ensures LosesPrefixes(before, keyOf - {n}, k)
  {
    hide TreeOk, Linked, HintOk, AddressesOk, Leases, IsEdge;
    LiveNode(ix.shape, ix.block, at, keyOf, size, n);
    PrefixOfPrefix(keyOf[ix.shape.parent[n]], keyOf[n], k);
  }

  lemma EndPrune(ix: Index, keyOf: map<nat, Key>, n: nat, guarded: Option<nat>)
    requires DeadOnly(ix, keyOf, n, guarded) && (n == Root || guarded == Some(n) || n in ix.block || (n in ix.shape.children && ix.shape.children[n] != map[]))
    ensures NoDeadLeaf(ix, keyOf, guarded)
  {
  }

  lemma PruneStep(ix: Index, at: map<Key, nat>, keyOf: map<nat, Key>, order: seq<nat>, size: nat, n: nat, guarded: Option<nat>,
                  hint: seq<nat>, before: map<nat, Key>)
    requires size > 0 && IndexOk(ix, at, keyOf, order, size) && n in keyOf && n != Root && n !in ix.block
    requires n in ix.shape.children && ix.shape.children[n] == map[] && DeadOnly(ix, keyOf, n, guarded)
    requires HintCut(hint, ix.publication, keyOf) && Forgets(before, keyOf)
    ensures var sh := ix.shape; n in sh.parent && n in sh.edge && n in sh.depth && sh.parent[n] in sh.children && sh.nodes > 0
    ensures var t, fewer, p := Detach(ix, n), keyOf - {n}, ix.shape.parent[n];
      && IndexOk(t, at - {keyOf[n]}, fewer, order, size) && FlatOf(t, at - {keyOf[n]}, fewer, order) == FlatOf(ix, at, keyOf, order)
      && t.block == ix.block && p in fewer && p in t.shape.children && |fewer| < |keyOf|
      && DeadOnly(t, fewer, p, guarded) && HintCut(hint, t.publication, fewer) && Forgets(before, fewer)
  {
    DetachOk(ix, at, keyOf, order, size, n);
    DetachDeadLeaves(ix, keyOf, n, guarded);
    DetachCut(ix, hint, keyOf, n);
    assert (keyOf - {n}).Keys == keyOf.Keys - {n};
    hide IndexOk, FlatOf, DeadOnly, HintCut;
  }
}
