/** The page trie of ExactPrefixCache (miniprefix/src/kv/prefix_cache.cpp): nodes are addresses in an arena and every
    link of the source's Node is a map from addresses, so stale or recycled addresses can be talked about. */
module TrieIndex {
  import opened Arithmetic
  import opened Prelude
  import opened PageKeys
  import opened FlatCache

  type Page = seq<Token>

  const Root: nat := 0

  /** Tree links: `children` are the owned edges, `available` the searchable (leased) ones. */
  datatype Shape = Shape(
    parent: map<nat, nat>, depth: map<nat, nat>, edge: map<nat, Page>,
    children: map<nat, map<Page, nat>>, available: map<nat, map<Page, nat>>, nodes: nat)

  /** The doubly linked LRU list. */
  datatype Links = Links(previous: map<nat, nat>, next: map<nat, nat>, oldest: Option<nat>, newest: Option<nat>, cached: nat)

  /** A node is leased when it has a `block`; `publication` is the hint left by the last publication,
      `spare` one recycled address and `top` the first address never used. */
  datatype Index = Index(shape: Shape, links: Links, block: map<nat, nat>, publication: seq<nat>, spare: Option<nat>, top: nat)

  const EmptyIndex := Index(
    Shape(map[], map[Root := 0], map[], map[Root := map[]], map[Root := map[]], 0),
    Links(map[], map[], None, None, 0), map[], [], None, 1)

  // ---- Names of nodes ----

  function ParentKey(k: Key, size: nat): Key
    requires size > 0 && k != []
  {
    PageStartBounds(|k|, size);
    k[..PageStart(|k|, size)]
  }

  function LastPage(k: Key, size: nat): Page
    requires size > 0 && k != []
  {
    PageStartBounds(|k|, size);
    k[PageStart(|k|, size)..]
  }

  /** Below a node that ends on a page boundary, an edge of one to `size` tokens. */
  predicate IsEdge(k: Key, e: Page, size: nat)
    requires size > 0
  {
    |k| % size == 0 && 0 < |e| <= size
  }

  lemma EdgeKey(k: Key, e: Page, size: nat)
    requires size > 0 && IsEdge(k, e, size)
    ensures k + e != [] && ParentKey(k + e, size) == k && LastPage(k + e, size) == e
    ensures PageCount(|k + e|, size) == PageCount(|k|, size) + 1
  {
    var j := |k| / size;
    DivisionBounds(|k|, size);
    MulMonotone(j, j, size);
    QuotientUnique(|k + e| - 1, size, j);
    PageCountUnique(|k + e|, size, j + 1);
    assert (k + e)[..|k|] == k && (k + e)[|k|..] == e;
  }

  lemma KeySplits(k: Key, size: nat)
    requires size > 0 && k != []
    ensures k == ParentKey(k, size) + LastPage(k, size)
    ensures IsEdge(ParentKey(k, size), LastPage(k, size), size)
    ensures |ParentKey(k, size)| < |k|
  {
    PageStartBounds(|k|, size);
    MultipleOfSize((|k| - 1) / size, size);
  }

  // ---- Shape ----

  /** Live nodes and their names determine each other. */
  ghost predicate Named(at: map<Key, nat>, keyOf: map<nat, Key>) {
    && [] in at && at[[]] == Root
    && (forall k :: k in at ==> at[k] in keyOf && keyOf[at[k]] == k)
    && (forall n :: n in keyOf ==> keyOf[n] in at && at[keyOf[n]] == n)
  }

  ghost predicate Upward(sh: Shape, at: map<Key, nat>, keyOf: map<nat, Key>, size: nat)
    requires size > 0
  {
    forall n :: n in keyOf ==> NodeUp(sh, at, keyOf[n], size, n)
  }

  /** Parent, edge and depth of a node follow from its name. */
  ghost predicate NodeUp(sh: Shape, at: map<Key, nat>, k: Key, size: nat, n: nat)
    requires size > 0
  {
    && n in sh.depth && sh.depth[n] == PageCount(|k|, size)
    && (n != Root ==>
          && k != [] && ParentKey(k, size) in at
          && n in sh.parent && sh.parent[n] == at[ParentKey(k, size)]
          && n in sh.edge && sh.edge[n] == LastPage(k, size))
  }

  /** The children of a node are exactly the one-page extensions of its name. */
  ghost predicate Downward(children: map<nat, map<Page, nat>>, at: map<Key, nat>, keyOf: map<nat, Key>, size: nat)
    requires size > 0
  {
    forall n :: n in keyOf ==> n in children && NodeDown(children[n], at, keyOf[n], size)
  }

  ghost predicate NodeDown(children: map<Page, nat>, at: map<Key, nat>, k: Key, size: nat)
    requires size > 0
  {
    && (forall e :: e in children ==> IsEdge(k, e, size) && k + e in at && children[e] == at[k + e])
    && (forall e :: IsEdge(k, e, size) && k + e in at ==> e in children)
  }

  /** The searchable edges are exactly the leased children. */
  ghost predicate Searchable(available: map<nat, map<Page, nat>>, children: map<nat, map<Page, nat>>, block: map<nat, nat>, keyOf: map<nat, Key>) {
    forall n :: n in keyOf ==> n in available && n in children && NodeSearch(available[n], children[n], block)
  }

  ghost predicate NodeSearch(available: map<Page, nat>, children: map<Page, nat>, block: map<nat, nat>) {
    && (forall e :: e in available ==> e in children && available[e] == children[e] && children[e] in block)
    && (forall e :: e in children && children[e] in block ==> e in available)
  }

  ghost predicate TreeOk(sh: Shape, block: map<nat, nat>, at: map<Key, nat>, keyOf: map<nat, Key>, size: nat)
    requires size > 0
  {
    && Named(at, keyOf) && Upward(sh, at, keyOf, size)
    && Downward(sh.children, at, keyOf, size) && Searchable(sh.available, sh.children, block, keyOf)
    && |keyOf| == sh.nodes + 1
  }

  /** The LRU list threads `order`, oldest first. */
  ghost predicate Linked(l: Links, order: seq<nat>) {
    && NoDuplicates(order)
    && l.cached == |order|
    && l.oldest == (if order == [] then None else Some(order[0]))
    && l.newest == (if order == [] then None else Some(order[|order| - 1]))
    && (forall i :: 0 <= i < |order| ==> LinkAt(l.previous, l.next, order, i))
  }

  ghost predicate LinkAt(previous: map<nat, nat>, next: map<nat, nat>, order: seq<nat>, i: nat)
    requires i < |order|
  {
    && (if i == 0 then order[i] !in previous else order[i] in previous && previous[order[i]] == order[i - 1])
    && (if i == |order| - 1 then order[i] !in next else order[i] in next && next[order[i]] == order[i + 1])
  }

  /** Exactly the listed nodes are leased, and they are live and not the root. */
  ghost predicate Leases(block: map<nat, nat>, keyOf: map<nat, Key>, order: seq<nat>) {
    && (forall n :: n in order <==> n in block)
    && (forall n :: n in block ==> n in keyOf && n != Root)
  }

  /** The publication hint is a chain of live nodes from the root. */
  ghost predicate HintOk(hint: seq<nat>, parent: map<nat, nat>, keyOf: map<nat, Key>) {
    forall i :: 0 <= i < |hint| ==> HintAt(hint, parent, keyOf, i)
  }

  ghost predicate HintAt(hint: seq<nat>, parent: map<nat, nat>, keyOf: map<nat, Key>, i: nat)
    requires i < |hint|
  {
    && hint[i] in keyOf && hint[i] != Root
    && hint[i] in parent && parent[hint[i]] == (if i == 0 then Root else hint[i - 1])
  }

  /** Used addresses lie below `top`; the recycled one is unreachable and owns nothing. */
  ghost predicate AddressesOk(ix: Index, keyOf: map<nat, Key>) {
    && (forall n :: n in keyOf ==> n < ix.top)
    && (ix.spare.Some? ==> ix.spare.value < ix.top && Vacant(ix, keyOf, ix.spare.value))
  }

  ghost predicate Vacant(ix: Index, keyOf: map<nat, Key>, n: nat) {
    && n !in keyOf && n !in ix.block
    && n in ix.shape.children && ix.shape.children[n] == map[] && n in ix.shape.available && ix.shape.available[n] == map[]
  }

  /** An unleased live node without children. */
  ghost predicate DeadLeaf(ix: Index, keyOf: map<nat, Key>, n: nat) {
    n in keyOf && n != Root && n !in ix.block && n in ix.shape.children && ix.shape.children[n] == map[]
  }

  /** Every node but the root and `except` is leased or leads to a child. */
  ghost predicate NoDeadLeaf(ix: Index, keyOf: map<nat, Key>, except: Option<nat>) {
    forall n: nat :: DeadLeaf(ix, keyOf, n) ==> except == Some(n)
  }

  ghost predicate IndexOk(ix: Index, at: map<Key, nat>, keyOf: map<nat, Key>, order: seq<nat>, size: nat)
    requires size > 0
  {
    && TreeOk(ix.shape, ix.block, at, keyOf, size) && Linked(ix.links, order) && Leases(ix.block, keyOf, order)
    && HintOk(ix.publication, ix.shape.parent, keyOf) && AddressesOk(ix, keyOf)
  }

  /** The flat cache this index stands for. */
  ghost function Entries(at: map<Key, nat>, block: map<nat, nat>): map<Key, nat> {
    map k | k in at && at[k] in block :: block[at[k]]
  }

  ghost function OrderKeys(order: seq<nat>, keyOf: map<nat, Key>): (r: seq<Key>)
    ensures |r| == |order|
  {
    seq(|order|, i requires 0 <= i < |order| => if order[i] in keyOf then keyOf[order[i]] else [])
  }

  ghost function FlatOf(ix: Index, at: map<Key, nat>, keyOf: map<nat, Key>, order: seq<nat>): Flat {
    Flat(Entries(at, ix.block), OrderKeys(order, keyOf))
  }

  // ---- The LRU list ----

  function Unlink(l: Links, n: nat): Links {
    var a, b := if n in l.previous then Some(l.previous[n]) else None, if n in l.next then Some(l.next[n]) else None;
    var next := if a.Some? then (if b.Some? then l.next[a.value := b.value] else l.next - {a.value}) else l.next;
    var previous := if b.Some? then (if a.Some? then l.previous[b.value := a.value] else l.previous - {b.value}) else l.previous;
    Links(previous - {n}, next - {n}, if a.Some? then l.oldest else b, if b.Some? then l.newest else a, l.cached)
  }

  function Append(l: Links, n: nat): Links {
    Links(if l.newest.Some? then l.previous[n := l.newest.value] else l.previous - {n},
          (if l.newest.Some? then l.next[l.newest.value := n] else l.next) - {n},
          if l.newest.Some? then l.oldest else Some(n), Some(n), l.cached)
  }

  function TouchNode(l: Links, n: nat): Links {
    Append(Unlink(l, n), n)
  }

  lemma UnlinkOk(l: Links, order: seq<nat>, i: nat)
    requires Linked(l, order) && i < |order|
    ensures Linked(Unlink(l, order[i]).(cached := l.cached - 1), order[..i] + order[i + 1..])
  {
    var n := order[i];
    var r := order[..i] + order[i + 1..];
    var t := Unlink(l, n).(cached := l.cached - 1);
    assert LinkAt(l.previous, l.next, order, i);
    forall j | 0 <= j < |r| ensures LinkAt(t.previous, t.next, r, j) {
      var o := if j < i then j else j + 1;
      assert r[j] == order[o] && order[o] != n;
      assert LinkAt(l.previous, l.next, order, o);
      assert i > 0 ==> (order[o] == order[i - 1] <==> o == i - 1);
      assert i < |order| - 1 ==> (order[o] == order[i + 1] <==> o == i + 1);
    }
  }

  lemma AppendOk(l: Links, order: seq<nat>, n: nat)
    requires Linked(l, order) && n !in order
    ensures Linked(Append(l, n).(cached := l.cached + 1), order + [n])
  {
    var r := order + [n];
    var t := Append(l, n).(cached := l.cached + 1);
    forall j | 0 <= j < |r| ensures LinkAt(t.previous, t.next, r, j) {
      if j < |order| {
        assert LinkAt(l.previous, l.next, order, j);
        assert r[j] == order[j] && order[j] in order;
        assert order[j] == order[|order| - 1] <==> j == |order| - 1;
      }
    }
  }

  lemma TouchLinked(l: Links, order: seq<nat>, i: nat)
    requires Linked(l, order) && i < |order|
    ensures Linked(TouchNode(l, order[i]), order[..i] + order[i + 1..] + [order[i]])
  {
    UnlinkOk(l, order, i);
    var r := order[..i] + order[i + 1..];
    assert order[i] !in r;
    var u := Unlink(l, order[i]);
    AppendOk(u.(cached := l.cached - 1), r, order[i]);
    assert Append(u.(cached := l.cached - 1), order[i]).(cached := l.cached) == Append(u, order[i]);
  }

  // ---- Growing the tree ----

  /** Takes the recycled address, or a fresh empty one. */
  function TakeNode(ix: Index): Index {
    if ix.spare.Some? then ix.(spare := None)
    else
      var sh := ix.shape;
      ix.(top := ix.top + 1, shape := sh.(children := sh.children[ix.top := map[]], available := sh.available[ix.top := map[]]))
  }

  function TakenNode(ix: Index): nat {
    if ix.spare.Some? then ix.spare.value else ix.top
  }

  function AddEdge(edges: map<Page, nat>, e: Page, n: nat): map<Page, nat> {
    edges[e := n]
  }

  /** Hangs the empty node `n` below `p` on edge `e`. */
  function Hang(sh: Shape, p: nat, e: Page, n: nat): Shape
    requires p in sh.children && p in sh.depth
  {
    Shape(sh.parent[n := p], sh.depth[n := sh.depth[p] + 1], sh.edge[n := e],
          sh.children[p := AddEdge(sh.children[p], e, n)], sh.available, sh.nodes + 1)
  }

  lemma NamedAdd(at: map<Key, nat>, keyOf: map<nat, Key>, k: Key, n: nat)
    requires Named(at, keyOf) && k !in at && n !in keyOf
    ensures Named(at[k := n], keyOf[n := k])
  {
  }

  lemma ParentsNamed(sh: Shape, at: map<Key, nat>, keyOf: map<nat, Key>, size: nat)
    requires size > 0 && Named(at, keyOf) && Upward(sh, at, keyOf, size)
    ensures forall k :: k in at && k != [] ==> ParentKey(k, size) in at
  {
    hide PageCount, ParentKey, LastPage;
    forall k | k in at && k != [] ensures ParentKey(k, size) in at {
      assert NodeUp(sh, at, k, size, at[k]);
    }
  }

  lemma HangUpward(sh: Shape, at: map<Key, nat>, keyOf: map<nat, Key>, size: nat, p: nat, e: Page, n: nat)
    requires size > 0 && Named(at, keyOf) && Upward(sh, at, keyOf, size)
    requires p in keyOf && p in sh.children && IsEdge(keyOf[p], e, size) && keyOf[p] + e !in at && n !in keyOf
    ensures p in sh.depth && Upward(Hang(sh, p, e, n), at[keyOf[p] + e := n], keyOf[n := keyOf[p] + e], size)
  {
    var k := keyOf[p] + e;
    EdgeKey(keyOf[p], e, size);
    hide PageCount, ParentKey, LastPage;
    assert NodeUp(sh, at, keyOf[p], size, p);
    var t, at', keyOf' := Hang(sh, p, e, n), at[k := n], keyOf[n := k];
    forall x | x in keyOf' ensures NodeUp(t, at', keyOf'[x], size, x) {
      if x != n {
        assert NodeUp(sh, at, keyOf[x], size, x);
      }
    }
  }

  lemma HangDownward(children: map<nat, map<Page, nat>>, at: map<Key, nat>, keyOf: map<nat, Key>, size: nat, p: nat, e: Page, n: nat)
    requires size > 0 && Named(at, keyOf) && Downward(children, at, keyOf, size)
    requires p in keyOf && IsEdge(keyOf[p], e, size) && keyOf[p] + e !in at && n !in keyOf
    requires n in children && children[n] == map[]
    requires forall k :: k in at && k != [] ==> ParentKey(k, size) in at
    ensures Downward(children[p := AddEdge(children[p], e, n)], at[keyOf[p] + e := n], keyOf[n := keyOf[p] + e], size)
  {
    var k := keyOf[p] + e;
    EdgeKey(keyOf[p], e, size);
    var c, at', keyOf' := children[p := AddEdge(children[p], e, n)], at[k := n], keyOf[n := k];
    hide PageCount, ParentKey, LastPage;
    forall x | x in keyOf' ensures NodeDown(c[x], at', keyOf'[x], size) {
      forall f | IsEdge(keyOf'[x], f, size) && keyOf'[x] + f in at' ensures f in c[x] {
        EdgeKey(keyOf'[x], f, size);
        if keyOf'[x] + f == k {
          assert keyOf'[x] == keyOf[p] && f == e;
        }
      }
      forall f | f in c[x] ensures IsEdge(keyOf'[x], f, size) && keyOf'[x] + f in at' && c[x][f] == at'[keyOf'[x] + f] {
        if !(x == p && f == e) {
          assert NodeDown(children[x], at, keyOf[x], size);
        }
      }
    }
  }

  lemma HangSearchable(sh: Shape, block: map<nat, nat>, keyOf: map<nat, Key>, p: nat, e: Page, n: nat, k: Key)
    requires Searchable(sh.available, sh.children, block, keyOf) && p in keyOf && n !in keyOf && n !in block
    requires n in sh.children && sh.children[n] == map[] && n in sh.available && sh.available[n] == map[]
    requires e !in sh.children[p]
    ensures Searchable(sh.available, sh.children[p := AddEdge(sh.children[p], e, n)], block, keyOf[n := k])
  {
  }

  lemma HangTree(sh: Shape, block: map<nat, nat>, at: map<Key, nat>, keyOf: map<nat, Key>, size: nat, p: nat, e: Page, n: nat)
    requires size > 0 && TreeOk(sh, block, at, keyOf, size)
    requires p in keyOf && IsEdge(keyOf[p], e, size) && keyOf[p] + e !in at && n !in keyOf && n !in block
    requires n in sh.children && sh.children[n] == map[] && n in sh.available && sh.available[n] == map[]
    ensures p in sh.children && p in sh.depth
    ensures TreeOk(Hang(sh, p, e, n), block, at[keyOf[p] + e := n], keyOf[n := keyOf[p] + e], size)
  {
    var k := keyOf[p] + e;
    ParentsNamed(sh, at, keyOf, size);
    assert NodeDown(sh.children[p], at, keyOf[p], size);
    hide PageCount, ParentKey, LastPage, IsEdge, NodeUp;
    NamedAdd(at, keyOf, k, n);
    HangUpward(sh, at, keyOf, size, p, e, n);
    HangDownward(sh.children, at, keyOf, size, p, e, n);
    HangSearchable(sh, block, keyOf, p, e, n, k);
    hide Named, Upward, Downward, Searchable;
    assert keyOf[n := k].Keys == keyOf.Keys + {n};
  }

  lemma UpwardSame(sh: Shape, t: Shape, at: map<Key, nat>, keyOf: map<nat, Key>, size: nat)
    requires size > 0 && Upward(sh, at, keyOf, size)
    requires t.parent == sh.parent && t.depth == sh.depth && t.edge == sh.edge
    ensures Upward(t, at, keyOf, size)
  {
    hide PageCount, ParentKey, LastPage;
    forall n | n in keyOf ensures NodeUp(t, at, keyOf[n], size, n) {
      assert NodeUp(sh, at, keyOf[n], size, n);
    }
  }

  /** The tree predicates only look at live nodes. */
  lemma TakeTree(ix: Index, at: map<Key, nat>, keyOf: map<nat, Key>, size: nat)
    requires size > 0 && TreeOk(ix.shape, ix.block, at, keyOf, size) && AddressesOk(ix, keyOf)
    ensures TreeOk(TakeNode(ix).shape, ix.block, at, keyOf, size)
  {
    hide PageCount, ParentKey, LastPage, IsEdge, NodeDown, NodeSearch, Named, Vacant;
    if ix.spare.None? {
      var sh, t := ix.shape, TakeNode(ix).shape;
      assert t.parent == sh.parent && t.depth == sh.depth && t.edge == sh.edge && t.nodes == sh.nodes;
      assert forall n :: n in keyOf ==> t.children[n] == sh.children[n] && t.available[n] == sh.available[n];
      hide TakeNode, AddressesOk;
      UpwardSame(sh, t, at, keyOf, size);
      hide Upward;
    }
  }

  /** A new node on edge `e` below `p`. */
  function Grow(ix: Index, p: nat, e: Page): Index
    requires p in ix.shape.children && p in ix.shape.depth
  {
    var t := TakeNode(ix);
    t.(shape := Hang(t.shape, p, e, TakenNode(ix)))
  }

  lemma TakenVacant(ix: Index, keyOf: map<nat, Key>, order: seq<nat>)
    requires AddressesOk(ix, keyOf) && Leases(ix.block, keyOf, order)
    ensures Vacant(TakeNode(ix), keyOf, TakenNode(ix)) && TakenNode(ix) < TakeNode(ix).top
    ensures TakeNode(ix).spare == None && forall n :: n in keyOf ==> n < TakeNode(ix).top
  {
  }

  lemma GrowFlat(block: map<nat, nat>, at: map<Key, nat>, keyOf: map<nat, Key>, order: seq<nat>, k: Key, n: nat)
    requires Leases(block, keyOf, order) && k !in at && n !in keyOf
    ensures Entries(at[k := n], block) == Entries(at, block)
    ensures OrderKeys(order, keyOf[n := k]) == OrderKeys(order, keyOf)
    ensures Leases(block, keyOf[n := k], order)
  {
    assert forall i :: 0 <= i < |order| ==> order[i] in block;
  }

  lemma GrowHint(hint: seq<nat>, parent: map<nat, nat>, keyOf: map<nat, Key>, k: Key, n: nat, p: nat)
    requires HintOk(hint, parent, keyOf) && n !in keyOf
    ensures HintOk(hint, parent[n := p], keyOf[n := k])
  {
    var parent', keyOf' := parent[n := p], keyOf[n := k];
    forall i | 0 <= i < |hint| ensures HintAt(hint, parent', keyOf', i) {
      assert HintAt(hint, parent, keyOf, i);
    }
  }

  lemma GrowOk(ix: Index, at: map<Key, nat>, keyOf: map<nat, Key>, order: seq<nat>, size: nat, p: nat, e: Page)
    requires size > 0 && IndexOk(ix, at, keyOf, order, size)
    requires p in keyOf && IsEdge(keyOf[p], e, size) && keyOf[p] + e !in at
    ensures p in ix.shape.children && p in ix.shape.depth && TakenNode(ix) !in keyOf
    ensures var n, k := TakenNode(ix), keyOf[p] + e;
      && IndexOk(Grow(ix, p, e), at[k := n], keyOf[n := k], order, size)
      && FlatOf(Grow(ix, p, e), at[k := n], keyOf[n := k], order) == FlatOf(ix, at, keyOf, order)
  {
    hide TreeOk, Linked, HintOk, Leases, AddressesOk, IsEdge, OrderKeys, Entries, Hang;
    var n, k := TakenNode(ix), keyOf[p] + e;
    LiveNode(ix.shape, ix.block, at, keyOf, size, p);
    TakenVacant(ix, keyOf, order);
    TakeTree(ix, at, keyOf, size);
    HangTree(TakeNode(ix).shape, ix.block, at, keyOf, size, p, e, n);
    GrowFlat(ix.block, at, keyOf, order, k, n);
    GrowHint(ix.publication, ix.shape.parent, keyOf, k, n, p);
    GrowRest(ix, keyOf, p, e, k);
  }

  lemma LiveNode(sh: Shape, block: map<nat, nat>, at: map<Key, nat>, keyOf: map<nat, Key>, size: nat, n: nat)
    requires size > 0 && TreeOk(sh, block, at, keyOf, size) && n in keyOf
    ensures n in sh.children && n in sh.available && n in sh.depth && sh.depth[n] == PageCount(|keyOf[n]|, size)
    ensures keyOf[n] in at && at[keyOf[n]] == n && (n != Root ==> keyOf[n] != [])
    ensures n != Root ==>
      && n in sh.parent && n in sh.edge && sh.parent[n] in keyOf && sh.parent[n] != n
      && keyOf[n] == keyOf[sh.parent[n]] + sh.edge[n] && IsEdge(keyOf[sh.parent[n]], sh.edge[n], size)
  {
    assert NodeUp(sh, at, keyOf[n], size, n);
    hide PageCount, NodeDown, NodeSearch, IsEdge, Upward;
    if n != Root {
      KeySplits(keyOf[n], size);
    }
  }

  lemma GrowRest(ix: Index, keyOf: map<nat, Key>, p: nat, e: Page, k: Key)
    requires p in ix.shape.children && p in ix.shape.depth && AddressesOk(ix, keyOf)
    ensures AddressesOk(Grow(ix, p, e), keyOf[TakenNode(ix) := k])
    ensures var t := Grow(ix, p, e);
      t.links == ix.links && t.block == ix.block && t.publication == ix.publication && t.shape.parent == ix.shape.parent[TakenNode(ix) := p]
  {
  }

  // ---- Recency ----

  lemma MovedLeases(block: map<nat, nat>, keyOf: map<nat, Key>, order: seq<nat>, i: nat)
    requires Leases(block, keyOf, order) && i < |order|
    ensures Leases(block, keyOf, order[..i] + order[i + 1..] + [order[i]])
  {
    var moved := order[..i] + order[i + 1..] + [order[i]];
    forall n ensures n in moved <==> n in order {
      assert order == order[..i] + [order[i]] + order[i + 1..];
    }
  }

  lemma OrderKeysDistinct(at: map<Key, nat>, keyOf: map<nat, Key>, order: seq<nat>, block: map<nat, nat>)
    requires Named(at, keyOf) && NoDuplicates(order) && Leases(block, keyOf, order)
    ensures NoDuplicates(OrderKeys(order, keyOf))
    ensures forall i :: 0 <= i < |order| ==> order[i] in keyOf && OrderKeys(order, keyOf)[i] == keyOf[order[i]]
  {
    assert forall i :: 0 <= i < |order| ==> order[i] in order;
  }

  lemma OrderKeysWithout(at: map<Key, nat>, keyOf: map<nat, Key>, order: seq<nat>, i: nat, block: map<nat, nat>)
    requires Named(at, keyOf) && NoDuplicates(order) && Leases(block, keyOf, order) && i < |order|
    ensures order[i] in keyOf
    ensures OrderKeys(order[..i] + order[i + 1..], keyOf) == Without(OrderKeys(order, keyOf), keyOf[order[i]])
  {
    OrderKeysDistinct(at, keyOf, order, block);
    var ks := OrderKeys(order, keyOf);
    WithoutAt(ks, i);
    assert OrderKeys(order[..i] + order[i + 1..], keyOf) == ks[..i] + ks[i + 1..];
  }

  lemma OrderKeysAppend(order: seq<nat>, keyOf: map<nat, Key>, n: nat)
    requires n in keyOf
    ensures OrderKeys(order + [n], keyOf) == OrderKeys(order, keyOf) + [keyOf[n]]
  {
  }

  lemma TouchIndexOk(ix: Index, at: map<Key, nat>, keyOf: map<nat, Key>, order: seq<nat>, size: nat, i: nat)
    requires size > 0 && IndexOk(ix, at, keyOf, order, size) && i < |order|
    ensures var n, moved, t := order[i], order[..i] + order[i + 1..] + [order[i]], ix.(links := TouchNode(ix.links, order[i]));
      && IndexOk(t, at, keyOf, moved, size)
      && n in keyOf && FlatOf(t, at, keyOf, moved) == Touch(FlatOf(ix, at, keyOf, order), keyOf[n])
  {
    var n, moved := order[i], order[..i] + order[i + 1..] + [order[i]];
    TouchLinked(ix.links, order, i);
    MovedLeases(ix.block, keyOf, order, i);
    OrderKeysWithout(at, keyOf, order, i, ix.block);
    OrderKeysAppend(order[..i] + order[i + 1..], keyOf, n);
    hide TreeOk, Linked, HintOk, Leases, OrderKeys, Without, Entries, TouchNode;
  }

  // ---- Leasing and unleasing ----

  /** Makes `n` searchable. */
  function Offer(sh: Shape, n: nat): Shape
    requires n in sh.parent && n in sh.edge && sh.parent[n] in sh.available
  {
    var p := sh.parent[n];
    sh.(available := sh.available[p := AddEdge(sh.available[p], sh.edge[n], n)])
  }

  /** Takes `n` out of the search. */
  function Withdraw(sh: Shape, n: nat): Shape
    requires n in sh.parent && n in sh.edge && sh.parent[n] in sh.available
  {
    var p := sh.parent[n];
    sh.(available := sh.available[p := DropEdge(sh.available[p], sh.edge[n])])
  }

  function DropEdge(edges: map<Page, nat>, e: Page): map<Page, nat> {
    edges - {e}
  }

  /** Leases `page` for `n` as the newest entry. */
  function Lease(ix: Index, n: nat, page: nat): Index
    requires n in ix.shape.parent && n in ix.shape.edge && ix.shape.parent[n] in ix.shape.available
  {
    ix.(shape := Offer(ix.shape, n), block := ix.block[n := page], links := Append(ix.links, n).(cached := ix.links.cached + 1))
  }

  function Unlease(ix: Index, n: nat): Index
    requires n in ix.shape.parent && n in ix.shape.edge && ix.shape.parent[n] in ix.shape.available && ix.links.cached > 0
  {
    ix.(shape := Withdraw(ix.shape, n), block := ix.block - {n}, links := Unlink(ix.links, n).(cached := ix.links.cached - 1))
  }

  /** Only `available` and the leases changed. */
  lemma SameSkeleton(sh: Shape, t: Shape, block: map<nat, nat>, leased: map<nat, nat>, at: map<Key, nat>, keyOf: map<nat, Key>, size: nat)
    requires size > 0 && TreeOk(sh, block, at, keyOf, size)
    requires t.parent == sh.parent && t.depth == sh.depth && t.edge == sh.edge && t.children == sh.children && t.nodes == sh.nodes
    requires Searchable(t.available, t.children, leased, keyOf)
    ensures TreeOk(t, leased, at, keyOf, size)
  {
    UpwardSame(sh, t, at, keyOf, size);
  }

  /** A child is found from its own parent only. */
  lemma ChildHasOneParent(sh: Shape, block: map<nat, nat>, at: map<Key, nat>, keyOf: map<nat, Key>, size: nat, n: nat, x: nat, e: Page)
    requires size > 0 && TreeOk(sh, block, at, keyOf, size) && n in keyOf && n != Root && x in keyOf
    requires x in sh.children && e in sh.children[x] && sh.children[x][e] == n
    ensures n in sh.parent && n in sh.edge && sh.parent[n] == x && sh.edge[n] == e
  {
    LiveNode(sh, block, at, keyOf, size, n);
    assert NodeDown(sh.children[x], at, keyOf[x], size);
    assert NodeUp(sh, at, keyOf[n], size, n);
    EdgeKey(keyOf[x], e, size);
    hide PageCount, ParentKey, LastPage, IsEdge, Upward, Downward, Searchable;
  }

  lemma OwnEdge(sh: Shape, block: map<nat, nat>, at: map<Key, nat>, keyOf: map<nat, Key>, size: nat, n: nat)
    requires size > 0 && TreeOk(sh, block, at, keyOf, size) && n in keyOf && n != Root
    ensures n in sh.parent && n in sh.edge && sh.parent[n] in keyOf && sh.parent[n] in sh.available && sh.parent[n] in sh.children
    ensures sh.edge[n] in sh.children[sh.parent[n]] && sh.children[sh.parent[n]][sh.edge[n]] == n
  {
    LiveNode(sh, block, at, keyOf, size, n);
    LiveNode(sh, block, at, keyOf, size, sh.parent[n]);
    assert NodeDown(sh.children[sh.parent[n]], at, keyOf[sh.parent[n]], size);
    hide PageCount, IsEdge, Upward, Downward, Searchable;
  }

  /** Of the edges of one node, only `own` leads to `n`. */
  ghost predicate OnlyEdgeTo(children: map<Page, nat>, n: nat, own: Option<Page>) {
    && (own.Some? ==> own.value in children && children[own.value] == n)
    && (forall e :: e in children && children[e] == n ==> own == Some(e))
  }

  lemma OfferNode(available: map<Page, nat>, children: map<Page, nat>, block: map<nat, nat>, n: nat, page: nat, own: Option<Page>)
    requires NodeSearch(available, children, block) && OnlyEdgeTo(children, n, own)
    ensures NodeSearch(if own.Some? then AddEdge(available, own.value, n) else available, children, block[n := page])
  {
  }

  lemma WithdrawNode(available: map<Page, nat>, children: map<Page, nat>, block: map<nat, nat>, n: nat, own: Option<Page>)
    requires NodeSearch(available, children, block) && OnlyEdgeTo(children, n, own)
    ensures NodeSearch(if own.Some? then DropEdge(available, own.value) else available, children, block - {n})
  {
  }

  lemma OwnEdgeOnly(sh: Shape, block: map<nat, nat>, at: map<Key, nat>, keyOf: map<nat, Key>, size: nat, n: nat, x: nat)
    requires size > 0 && TreeOk(sh, block, at, keyOf, size) && n in keyOf && n != Root && x in keyOf
    ensures n in sh.parent && n in sh.edge && x in sh.children
    ensures OnlyEdgeTo(sh.children[x], n, if x == sh.parent[n] then Some(sh.edge[n]) else None)
  {
    OwnEdge(sh, block, at, keyOf, size, n);
    LiveNode(sh, block, at, keyOf, size, x);
    hide TreeOk, IsEdge;
    forall e | e in sh.children[x] && sh.children[x][e] == n ensures x == sh.parent[n] && e == sh.edge[n] {
      ChildHasOneParent(sh, block, at, keyOf, size, n, x, e);
    }
  }

  lemma OfferSearchable(sh: Shape, block: map<nat, nat>, at: map<Key, nat>, keyOf: map<nat, Key>, size: nat, n: nat, page: nat)
    requires size > 0 && TreeOk(sh, block, at, keyOf, size) && n in keyOf && n != Root
    ensures n in sh.parent && n in sh.edge && sh.parent[n] in sh.available
    ensures Searchable(Offer(sh, n).available, sh.children, block[n := page], keyOf)
  {
    OwnEdge(sh, block, at, keyOf, size, n);
    hide Named, Upward, Downward, NodeSearch, OnlyEdgeTo;
    var t := Offer(sh, n);
    forall x | x in keyOf ensures x in t.available && x in sh.children && NodeSearch(t.available[x], sh.children[x], block[n := page]) {
      OwnEdgeOnly(sh, block, at, keyOf, size, n, x);
      OfferNode(sh.available[x], sh.children[x], block, n, page, if x == sh.parent[n] then Some(sh.edge[n]) else None);
    }
  }

  lemma WithdrawSearchable(sh: Shape, block: map<nat, nat>, at: map<Key, nat>, keyOf: map<nat, Key>, size: nat, n: nat)
    requires size > 0 && TreeOk(sh, block, at, keyOf, size) && n in keyOf && n != Root
    ensures n in sh.parent && n in sh.edge && sh.parent[n] in sh.available
    ensures Searchable(Withdraw(sh, n).available, sh.children, block - {n}, keyOf)
  {
    OwnEdge(sh, block, at, keyOf, size, n);
    hide Named, Upward, Downward, NodeSearch, OnlyEdgeTo;
    var t := Withdraw(sh, n);
    forall x | x in keyOf ensures x in t.available && x in sh.children && NodeSearch(t.available[x], sh.children[x], block - {n}) {
      OwnEdgeOnly(sh, block, at, keyOf, size, n, x);
      WithdrawNode(sh.available[x], sh.children[x], block, n, if x == sh.parent[n] then Some(sh.edge[n]) else None);
    }
  }

  lemma LeaseFlat(block: map<nat, nat>, at: map<Key, nat>, keyOf: map<nat, Key>, order: seq<nat>, n: nat, page: nat)
    requires Named(at, keyOf) && Leases(block, keyOf, order) && n in keyOf && n != Root && n !in block
    ensures Entries(at, block[n := page]) == Entries(at, block)[keyOf[n] := page]
    ensures keyOf[n] !in Entries(at, block)
    ensures Leases(block[n := page], keyOf, order + [n])
  {
  }

  lemma MembersWithout(order: seq<nat>, i: nat)
    requires NoDuplicates(order) && i < |order|
    ensures forall x :: x in order[..i] + order[i + 1..] <==> x in order && x != order[i]
  {
    WithoutAt(order, i);
    WithoutProperties(order, order[i]);
  }

  lemma UnleaseFlat(block: map<nat, nat>, at: map<Key, nat>, keyOf: map<nat, Key>, order: seq<nat>, i: nat)
    requires Named(at, keyOf) && Leases(block, keyOf, order) && NoDuplicates(order) && i < |order|
    ensures order[i] in keyOf && Entries(at, block - {order[i]}) == Entries(at, block) - {keyOf[order[i]]}
    ensures Leases(block - {order[i]}, keyOf, order[..i] + order[i + 1..])
  {
    assert order[i] in order;
    EntriesWithout(block, at, keyOf, order[i]);
    MembersWithout(order, i);
    hide NoDuplicates, Entries, Named;
    var r := order[..i] + order[i + 1..];
    assert forall x :: x in r <==> x in order && x != order[i];
  }

  lemma EntriesWithout(block: map<nat, nat>, at: map<Key, nat>, keyOf: map<nat, Key>, n: nat)
    requires Named(at, keyOf) && n in keyOf
    ensures Entries(at, block - {n}) == Entries(at, block) - {keyOf[n]}
  {
  }

  lemma LeaseOk(ix: Index, at: map<Key, nat>, keyOf: map<nat, Key>, order: seq<nat>, size: nat, n: nat, page: nat)
    requires size > 0 && IndexOk(ix, at, keyOf, order, size) && n in keyOf && n != Root && n !in ix.block
    ensures n in ix.shape.parent && n in ix.shape.edge && ix.shape.parent[n] in ix.shape.available
    ensures IndexOk(Lease(ix, n, page), at, keyOf, order + [n], size)
    ensures var f := FlatOf(ix, at, keyOf, order);
      && keyOf[n] !in f.entries
      && FlatOf(Lease(ix, n, page), at, keyOf, order + [n]) == Flat(f.entries[keyOf[n] := page], f.lru + [keyOf[n]])
  {
    hide HintOk, OrderKeys, Entries, Append, TreeOk, Linked, Leases, AddressesOk, Offer, Named;
    LeaseTree(ix.shape, ix.block, at, keyOf, size, n, page);
    LeaseLists(ix, at, keyOf, order, size, n, page);
    OrderKeysAppend(order, keyOf, n);
    LeaseAddresses(ix, keyOf, n, page);
  }

  lemma LeaseTree(sh: Shape, block: map<nat, nat>, at: map<Key, nat>, keyOf: map<nat, Key>, size: nat, n: nat, page: nat)
    requires size > 0 && TreeOk(sh, block, at, keyOf, size) && n in keyOf && n != Root
    ensures n in sh.parent && n in sh.edge && sh.parent[n] in sh.available && sh.parent[n] in keyOf
    ensures TreeOk(Offer(sh, n), block[n := page], at, keyOf, size) && Offer(sh, n).parent == sh.parent
  {
    OwnEdge(sh, block, at, keyOf, size, n);
    OfferSearchable(sh, block, at, keyOf, size, n, page);
    hide TreeOk, Searchable;
    SameSkeleton(sh, Offer(sh, n), block, block[n := page], at, keyOf, size);
  }

  lemma LeaseLists(ix: Index, at: map<Key, nat>, keyOf: map<nat, Key>, order: seq<nat>, size: nat, n: nat, page: nat)
    requires size > 0 && IndexOk(ix, at, keyOf, order, size) && n in keyOf && n != Root && n !in ix.block
    ensures Entries(at, ix.block[n := page]) == Entries(at, ix.block)[keyOf[n] := page] && keyOf[n] !in Entries(at, ix.block)
    ensures Leases(ix.block[n := page], keyOf, order + [n])
    ensures Linked(Append(ix.links, n).(cached := ix.links.cached + 1), order + [n])
  {
    hide HintOk, AddressesOk, Append, Linked, Upward, Downward, Searchable, Entries, Named;
    LeaseFlat(ix.block, at, keyOf, order, n, page);
    assert n !in order;
    hide Leases;
    AppendOk(ix.links, order, n);
  }

  lemma LeaseAddresses(ix: Index, keyOf: map<nat, Key>, n: nat, page: nat)
    requires AddressesOk(ix, keyOf) && n in keyOf
    requires n in ix.shape.parent && n in ix.shape.edge && ix.shape.parent[n] in ix.shape.available && ix.shape.parent[n] in keyOf
    ensures AddressesOk(Lease(ix, n, page), keyOf)
    ensures ix.links.cached > 0 ==> AddressesOk(Unlease(ix, n), keyOf)
  {
  }

  lemma UnleaseOk(ix: Index, at: map<Key, nat>, keyOf: map<nat, Key>, order: seq<nat>, size: nat, i: nat)
    requires size > 0 && IndexOk(ix, at, keyOf, order, size) && i < |order|
    ensures var n, rest := order[i], order[..i] + order[i + 1..];
      && n in keyOf && n != Root && n in ix.block && ix.links.cached > 0
      && n in ix.shape.parent && n in ix.shape.edge && ix.shape.parent[n] in ix.shape.available
      && IndexOk(Unlease(ix, n), at, keyOf, rest, size)
      && var f := FlatOf(ix, at, keyOf, order);
      && keyOf[n] in f.entries && f.entries[keyOf[n]] == ix.block[n]
      && FlatOf(Unlease(ix, n), at, keyOf, rest) == Flat(f.entries - {keyOf[n]}, Without(f.lru, keyOf[n]))
  {
    hide HintOk, OrderKeys, Entries, Unlink, TreeOk, Linked, Leases, AddressesOk, Withdraw, Without, Named;
    UnleaseLists(ix, at, keyOf, order, size, i);
    UnleaseTree(ix.shape, ix.block, at, keyOf, size, order[i]);
    LeaseAddresses(ix, keyOf, order[i], 0);
  }

  lemma UnleaseTree(sh: Shape, block: map<nat, nat>, at: map<Key, nat>, keyOf: map<nat, Key>, size: nat, n: nat)
    requires size > 0 && TreeOk(sh, block, at, keyOf, size) && n in keyOf && n != Root
    ensures n in sh.parent && n in sh.edge && sh.parent[n] in sh.available && sh.parent[n] in keyOf
    ensures TreeOk(Withdraw(sh, n), block - {n}, at, keyOf, size) && Withdraw(sh, n).parent == sh.parent
  {
    OwnEdge(sh, block, at, keyOf, size, n);
    WithdrawSearchable(sh, block, at, keyOf, size, n);
    hide TreeOk, Searchable;
    SameSkeleton(sh, Withdraw(sh, n), block, block - {n}, at, keyOf, size);
  }

  lemma UnleaseLists(ix: Index, at: map<Key, nat>, keyOf: map<nat, Key>, order: seq<nat>, size: nat, i: nat)
    requires size > 0 && IndexOk(ix, at, keyOf, order, size) && i < |order|
    ensures var n, rest := order[i], order[..i] + order[i + 1..];
      && n in keyOf && n != Root && n in ix.block && ix.links.cached > 0
      && Entries(at, ix.block - {n}) == Entries(at, ix.block) - {keyOf[n]} && Leases(ix.block - {n}, keyOf, rest)
      && keyOf[n] in Entries(at, ix.block) && Entries(at, ix.block)[keyOf[n]] == ix.block[n]
      && Linked(Unlink(ix.links, n).(cached := ix.links.cached - 1), rest)
      && OrderKeys(rest, keyOf) == Without(OrderKeys(order, keyOf), keyOf[n])
  {
    hide HintOk, AddressesOk, Upward, Downward, Searchable, OrderKeys, Unlink, Without;
    assert order[i] in order;
    UnleaseFlat(ix.block, at, keyOf, order, i);
    OrderKeysWithout(at, keyOf, order, i, ix.block);
    LeasedEntry(ix.block, at, keyOf, order[i]);
    hide Entries, Leases, Named;
    UnlinkOk(ix.links, order, i);
  }

  lemma LeasedEntry(block: map<nat, nat>, at: map<Key, nat>, keyOf: map<nat, Key>, n: nat)
    requires Named(at, keyOf) && n in keyOf && n in block
    ensures keyOf[n] in Entries(at, block) && Entries(at, block)[keyOf[n]] == block[n]
  {
  }

  // ---- Pruning ----

  /** Forgets the hint from a node of depth `d` on. */
  function CutHint(hint: seq<nat>, n: nat, d: nat): seq<nat> {
    if 0 < d <= |hint| && hint[d - 1] == n then hint[..d - 1] else hint
  }

  /** Extracts the childless, unleased node `n` and keeps its address for reuse. */
  function Detach(ix: Index, n: nat): Index
    requires var sh := ix.shape; n in sh.parent && n in sh.edge && n in sh.depth && sh.parent[n] in sh.children && sh.nodes > 0
  {
    var sh := ix.shape;
    var p := sh.parent[n];
    ix.(shape := sh.(children := sh.children[p := DropEdge(sh.children[p], sh.edge[n])], nodes := sh.nodes - 1),
        publication := CutHint(ix.publication, n, sh.depth[n]), spare := Some(n))
  }

  lemma NamedRemove(at: map<Key, nat>, keyOf: map<nat, Key>, n: nat)
    requires Named(at, keyOf) && n in keyOf && n != Root
    ensures Named(at - {keyOf[n]}, keyOf - {n})
  {
  }

  lemma NoParentRemoved(sh: Shape, block: map<nat, nat>, at: map<Key, nat>, keyOf: map<nat, Key>, size: nat, n: nat, x: nat)
    requires size > 0 && TreeOk(sh, block, at, keyOf, size) && n in keyOf && x in keyOf && x != Root
    requires n in sh.children && sh.children[n] == map[]
    ensures x in sh.parent && sh.parent[x] != n
  {
    OwnEdge(sh, block, at, keyOf, size, x);
  }

  lemma DetachUpward(sh: Shape, block: map<nat, nat>, at: map<Key, nat>, keyOf: map<nat, Key>, size: nat, n: nat)
    requires size > 0 && TreeOk(sh, block, at, keyOf, size) && n in keyOf && n != Root
    requires n in sh.children && sh.children[n] == map[]
    ensures Upward(sh, at - {keyOf[n]}, keyOf - {n}, size)
  {
    hide PageCount, ParentKey, LastPage, Downward, Searchable;
    forall x | x in keyOf - {n} ensures NodeUp(sh, at - {keyOf[n]}, keyOf[x], size, x) {
      assert NodeUp(sh, at, keyOf[x], size, x);
      if x != Root {
        NoParentRemoved(sh, block, at, keyOf, size, n, x);
      }
    }
  }

  lemma DetachDownward(sh: Shape, block: map<nat, nat>, at: map<Key, nat>, keyOf: map<nat, Key>, size: nat, n: nat)
    requires size > 0 && TreeOk(sh, block, at, keyOf, size) && n in keyOf && n != Root
    requires n in sh.parent && n in sh.edge && sh.parent[n] in sh.children
    ensures Downward(sh.children[sh.parent[n] := DropEdge(sh.children[sh.parent[n]], sh.edge[n])], at - {keyOf[n]}, keyOf - {n}, size)
  {
    var p, e := sh.parent[n], sh.edge[n];
    var c := sh.children[p := DropEdge(sh.children[p], e)];
    LiveNode(sh, block, at, keyOf, size, n);
    forall x | x in keyOf - {n} ensures x in c && NodeDown(c[x], at - {keyOf[n]}, keyOf[x], size) {
      DetachNode(sh, block, at, keyOf, size, n, x);
    }
  }

  lemma DropNodeDown(children: map<Page, nat>, at: map<Key, nat>, k: Key, size: nat, n: nat, name: Key, own: Option<Page>)
    requires size > 0 && NodeDown(children, at, k, size) && OnlyEdgeTo(children, n, own)
    requires name in at && at[name] == n && forall x :: x in at && at[x] == n ==> x == name
    ensures NodeDown(if own.Some? then DropEdge(children, own.value) else children, at - {name}, k, size)
  {
    hide IsEdge;
    var c := if own.Some? then DropEdge(children, own.value) else children;
    forall f | f in c ensures k + f != name {
      assert children[f] == at[k + f];
    }
    forall f | IsEdge(k, f, size) && k + f in at - {name} ensures f in c {
      assert f in children && children[f] == at[k + f];
    }
  }

  lemma DetachNode(sh: Shape, block: map<nat, nat>, at: map<Key, nat>, keyOf: map<nat, Key>, size: nat, n: nat, x: nat)
    requires size > 0 && TreeOk(sh, block, at, keyOf, size) && n in keyOf && n != Root && x in keyOf
    requires n in sh.parent && n in sh.edge
    ensures x in sh.children && NodeDown(if x == sh.parent[n] then DropEdge(sh.children[x], sh.edge[n]) else sh.children[x], at - {keyOf[n]}, keyOf[x], size)
  {
    hide Upward, Searchable, NodeDown, IsEdge, OnlyEdgeTo, DropEdge;
    OwnEdgeOnly(sh, block, at, keyOf, size, n, x);
    DropNodeDown(sh.children[x], at, keyOf[x], size, n, keyOf[n], if x == sh.parent[n] then Some(sh.edge[n]) else None);
  }

  lemma DropNodeSearch(available: map<Page, nat>, children: map<Page, nat>, block: map<nat, nat>, e: Page)
    requires NodeSearch(available, children, block) && e in children && children[e] !in block
    ensures NodeSearch(available, DropEdge(children, e), block)
  {
  }

  lemma DetachSearchable(sh: Shape, block: map<nat, nat>, at: map<Key, nat>, keyOf: map<nat, Key>, size: nat, n: nat)
    requires size > 0 && TreeOk(sh, block, at, keyOf, size) && n in keyOf && n != Root && n !in block
    requires n in sh.parent && n in sh.edge && sh.parent[n] in sh.children
    ensures Searchable(sh.available, sh.children[sh.parent[n] := DropEdge(sh.children[sh.parent[n]], sh.edge[n])], block, keyOf - {n})
  {
    OwnEdge(sh, block, at, keyOf, size, n);
    hide Named, Upward, Downward, NodeSearch;
    var p, e := sh.parent[n], sh.edge[n];
    assert NodeSearch(sh.available[p], sh.children[p], block);
    DropNodeSearch(sh.available[p], sh.children[p], block, e);
    hide DropEdge;
  }

  lemma RootName(sh: Shape, block: map<nat, nat>, at: map<Key, nat>, keyOf: map<nat, Key>, size: nat)
    requires size > 0 && TreeOk(sh, block, at, keyOf, size)
    ensures Root in keyOf && keyOf[Root] == []
  {
    hide Upward, Downward, Searchable;
  }

  /** Hint entry `i` lies at depth `i + 1`. */
  lemma {:induction false} HintDepth(ix: Index, at: map<Key, nat>, keyOf: map<nat, Key>, size: nat, i: nat)
    requires size > 0 && TreeOk(ix.shape, ix.block, at, keyOf, size) && HintOk(ix.publication, ix.shape.parent, keyOf) && i < |ix.publication|
    ensures ix.publication[i] in ix.shape.depth && ix.shape.depth[ix.publication[i]] == i + 1
    decreases i
  {
    hide TreeOk, IsEdge, PageCount;
    assert HintAt(ix.publication, ix.shape.parent, keyOf, i);
    var n := ix.publication[i];
    LiveNode(ix.shape, ix.block, at, keyOf, size, n);
    var p := ix.shape.parent[n];
    LiveNode(ix.shape, ix.block, at, keyOf, size, p);
    EdgeKey(keyOf[p], ix.shape.edge[n], size);
    if i > 0 {
      HintDepth(ix, at, keyOf, size, i - 1);
    } else {
      RootName(ix.shape, ix.block, at, keyOf, size);
      PageCountBounds(0, size);
      assert p == Root && |keyOf[p]| == 0;
    }
  }

  /** The cut hint does not mention the pruned node. */
  lemma DetachHint(ix: Index, at: map<Key, nat>, keyOf: map<nat, Key>, size: nat, n: nat)
    requires size > 0 && TreeOk(ix.shape, ix.block, at, keyOf, size) && HintOk(ix.publication, ix.shape.parent, keyOf)
    requires n in keyOf && n in ix.shape.depth
    ensures HintOk(CutHint(ix.publication, n, ix.shape.depth[n]), ix.shape.parent, keyOf - {n})
  {
    hide TreeOk;
    var hint, d := ix.publication, ix.shape.depth[n];
    forall i | 0 <= i < |hint| ensures hint[i] == n ==> d == i + 1 {
      HintDepth(ix, at, keyOf, size, i);
    }
    CutHintOk(hint, ix.shape.parent, keyOf, n, d);
  }

  lemma CutHintOk(hint: seq<nat>, parent: map<nat, nat>, keyOf: map<nat, Key>, n: nat, d: nat)
    requires HintOk(hint, parent, keyOf) && forall i :: 0 <= i < |hint| ==> (hint[i] == n ==> d == i + 1)
    ensures HintOk(CutHint(hint, n, d), parent, keyOf - {n})
  {
    var cut := CutHint(hint, n, d);
    forall i | 0 <= i < |cut| ensures HintAt(cut, parent, keyOf - {n}, i) {
      assert HintAt(hint, parent, keyOf, i);
      assert hint[i] == n ==> d == i + 1;
    }
  }

  lemma DetachTree(sh: Shape, block: map<nat, nat>, at: map<Key, nat>, keyOf: map<nat, Key>, size: nat, n: nat)
    requires size > 0 && TreeOk(sh, block, at, keyOf, size) && n in keyOf && n != Root && n !in block
    requires n in sh.children && sh.children[n] == map[]
    ensures n in sh.parent && n in sh.edge && n in sh.depth && sh.parent[n] in sh.children && sh.parent[n] in keyOf && sh.nodes > 0
    ensures TreeOk(sh.(children := sh.children[sh.parent[n] := DropEdge(sh.children[sh.parent[n]], sh.edge[n])], nodes := sh.nodes - 1),
                   block, at - {keyOf[n]}, keyOf - {n}, size)
  {
    OwnEdge(sh, block, at, keyOf, size, n);
    LiveNode(sh, block, at, keyOf, size, n);
    NamedRemove(at, keyOf, n);
    DetachUpward(sh, block, at, keyOf, size, n);
    DetachDownward(sh, block, at, keyOf, size, n);
    DetachSearchable(sh, block, at, keyOf, size, n);
    var t := sh.(children := sh.children[sh.parent[n] := DropEdge(sh.children[sh.parent[n]], sh.edge[n])]);
    assert |keyOf - {n}| == |keyOf| - 1 by {
      assert (keyOf - {n}).Keys == keyOf.Keys - {n};
    }
    assert Root in keyOf - {n};
    hide Named, Upward, Downward, Searchable, IsEdge;
    UpwardSame(sh, t.(nodes := sh.nodes - 1), at - {keyOf[n]}, keyOf - {n}, size);
  }

  lemma DetachOk(ix: Index, at: map<Key, nat>, keyOf: map<nat, Key>, order: seq<nat>, size: nat, n: nat)
    requires size > 0 && IndexOk(ix, at, keyOf, order, size) && n in keyOf && n != Root && n !in ix.block
    requires n in ix.shape.children && ix.shape.children[n] == map[]
    ensures var sh := ix.shape; n in sh.parent && n in sh.edge && n in sh.depth && sh.parent[n] in sh.children && sh.parent[n] in keyOf && sh.nodes > 0
    ensures ix.shape.parent[n] != n && IndexOk(Detach(ix, n), at - {keyOf[n]}, keyOf - {n}, order, size)
    ensures FlatOf(Detach(ix, n), at - {keyOf[n]}, keyOf - {n}, order) == FlatOf(ix, at, keyOf, order)
  {
    hide TreeOk, IsEdge, Linked, Entries, OrderKeys, HintOk, Leases, CutHint, DropEdge;
    LiveNode(ix.shape, ix.block, at, keyOf, size, n);
    DetachTree(ix.shape, ix.block, at, keyOf, size, n);
    DetachFlat(ix.block, at, keyOf, order, n);
    DetachHint(ix, at, keyOf, size, n);
    EmptySearch(ix.shape, ix.block, at, keyOf, size, n);
    DetachAddresses(ix, keyOf, n);
  }

  lemma EmptySearch(sh: Shape, block: map<nat, nat>, at: map<Key, nat>, keyOf: map<nat, Key>, size: nat, n: nat)
    requires size > 0 && TreeOk(sh, block, at, keyOf, size) && n in keyOf && n in sh.children && sh.children[n] == map[]
    ensures n in sh.available && sh.available[n] == map[]
  {
    hide Named, Upward, Downward;
    assert NodeSearch(sh.available[n], sh.children[n], block);
  }

  lemma DetachAddresses(ix: Index, keyOf: map<nat, Key>, n: nat)
    requires AddressesOk(ix, keyOf) && n in keyOf && n !in ix.block
    requires var sh := ix.shape; n in sh.parent && n in sh.edge && n in sh.depth && sh.parent[n] in sh.children && sh.nodes > 0
    requires ix.shape.parent[n] != n && n in ix.shape.children && ix.shape.children[n] == map[] && n in ix.shape.available && ix.shape.available[n] == map[]
    ensures AddressesOk(Detach(ix, n), keyOf - {n})
  {
  }

  lemma DetachFlat(block: map<nat, nat>, at: map<Key, nat>, keyOf: map<nat, Key>, order: seq<nat>, n: nat)
    requires Leases(block, keyOf, order) && n in keyOf && n !in block && keyOf[n] in at && at[keyOf[n]] == n
    ensures Entries(at - {keyOf[n]}, block) == Entries(at, block)
    ensures OrderKeys(order, keyOf - {n}) == OrderKeys(order, keyOf)
    ensures Leases(block, keyOf - {n}, order)
  {
    assert forall i :: 0 <= i < |order| ==> order[i] in block;
  }

  lemma EmptyOk(size: nat)
    requires size > 0
    ensures IndexOk(EmptyIndex, map[[] := Root], map[Root := []], [], size)
    ensures NoDeadLeaf(EmptyIndex, map[Root := []], None)
    ensures FlatOf(EmptyIndex, map[[] := Root], map[Root := []], []) == Flat(map[], [])
  {
    PageCountBounds(0, size);
    hide PageCount;
    var keyOf: map<nat, Key> := map[Root := []];
    assert |keyOf| == 1;
  }

  /** `fewer` forgets some nodes and renames none. */
  ghost predicate Forgets(keyOf: map<nat, Key>, fewer: map<nat, Key>) {
    forall n :: n in fewer ==> n in keyOf && fewer[n] == keyOf[n]
  }

  /** The hint was at most cut, and if so at a node that is gone. */
  ghost predicate HintCut(hint: seq<nat>, cut: seq<nat>, keyOf: map<nat, Key>) {
    cut <= hint && (|cut| < |hint| ==> hint[|cut|] !in keyOf)
  }

  /** Dead leaves are at most `n` and the guarded node. */
  ghost predicate DeadOnly(ix: Index, keyOf: map<nat, Key>, n: nat, guarded: Option<nat>) {
    forall x: nat :: DeadLeaf(ix, keyOf, x) ==> x == n || guarded == Some(x)
  }

  /** Detaching a dead leaf can only turn its parent into one. */
  lemma DetachDeadLeaves(ix: Index, keyOf: map<nat, Key>, n: nat, guarded: Option<nat>)
    requires DeadOnly(ix, keyOf, n, guarded)
    requires var sh := ix.shape; n in sh.parent && n in sh.edge && n in sh.depth && sh.parent[n] in sh.children && sh.nodes > 0
    ensures DeadOnly(Detach(ix, n), keyOf - {n}, ix.shape.parent[n], guarded)
  {
    forall x: nat | DeadLeaf(Detach(ix, n), keyOf - {n}, x) && x != ix.shape.parent[n] ensures guarded == Some(x) {
      assert DeadLeaf(ix, keyOf, x);
    }
  }

  lemma DetachCut(ix: Index, hint: seq<nat>, keyOf: map<nat, Key>, n: nat)
    requires HintCut(hint, ix.publication, keyOf)
    requires var sh := ix.shape; n in sh.parent && n in sh.edge && n in sh.depth && sh.parent[n] in sh.children && sh.nodes > 0
    ensures HintCut(hint, Detach(ix, n).publication, keyOf - {n})
  {
  }
}
