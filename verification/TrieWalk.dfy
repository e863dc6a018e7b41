/** Walking the trie in pre-order (Index::successor, miniprefix/src/kv/prefix_cache.cpp): because a partial page has no
    children, pre-order over pages is lexicographic order over whole token histories. */
module TrieWalk {
  import opened Arithmetic
  import opened Prelude
  import opened PageKeys
  import opened LexOrder
  import opened FlatCache
  import opened TrieIndex

  lemma PrefixNotLess(p: Key, k: Key)
    requires p <= k
    ensures !Less(k, p) && (p != k ==> Less(p, k))
  {
    LcpUnique(k, p, |p|);
    LcpUnique(p, k, |p|);
    LessCharacterized(k, p);
    LessCharacterized(p, k);
  }

  lemma LessThenLonger(a: Key, b: Key, c: Key)
    requires Less(a, b) && b <= c
    ensures Less(a, c)
  {
    PrefixNotLess(b, c);
    if b != c {
      LessTransitive(a, b, c);
    }
  }

  lemma LongerThenLess(a: Key, b: Key, c: Key)
    requires Less(a, b) && !(a <= b) && a <= c
    ensures Less(c, b)
  {
    var n := Lcp(a, b);
    LcpCharacterized(a, b);
    LessCharacterized(a, b);
    assert n < |a| by {
      assert a[..|a|] == a;
    }
    assert c[..n] == a[..n];
    LcpUnique(c, b, n);
    LessCharacterized(c, b);
  }

  lemma CommonFront(p: Key, k: Key, x: Key, n: nat)
    requires p <= k && n <= |k| && n <= |x| && k[..n] == x[..n]
    ensures n >= |p| ==> p <= x
  {
    if n >= |p| {
      assert x[..|p|] == x[..n][..|p|] == k[..n][..|p|] == k[..|p|] == p;
    }
  }

  lemma SharedFront(p: Key, a: Page, b: Page)
    ensures p + a <= p + b <==> a <= b
    ensures p <= p + a
  {
    if p + a <= p + b {
      assert a == (p + a)[|p|..] == (p + b)[..|p + a|][|p|..] == b[..|a|];
    }
  }

  /** What is after `k` but not below `p`, a prefix of `k`, is after everything below `p`. */
  lemma OutsideIsAfter(p: Key, k: Key, f: Page, x: Key)
    requires p <= k && Less(k, x) && !(p <= x)
    ensures Less(p + f, x)
  {
    var n := Lcp(k, x);
    LcpCharacterized(k, x);
    LessCharacterized(k, x);
    CommonFront(p, k, x, n);
    var y := p + f;
    assert y[..n] == p[..n] == k[..n];
    LcpUnique(y, x, n);
    LessCharacterized(y, x);
  }

  /** `k` names a node of the subtree of `p`. */
  ghost predicate InSubtree(p: Key, k: Key, size: nat)
    requires size > 0
  {
    p <= k && (p == k || |p| % size == 0)
  }

  /** A proper extension of a node's name runs through one of its children; a partial page is its end. */
  lemma {:induction false} Descend(sh: Shape, block: map<nat, nat>, at: map<Key, nat>, keyOf: map<nat, Key>, size: nat, p: nat, k: Key) returns (f: Page)
    requires size > 0 && TreeOk(sh, block, at, keyOf, size) && p in keyOf && k in at
    requires keyOf[p] <= k && keyOf[p] != k && |keyOf[p]| % size == 0
    ensures p in sh.children && f in sh.children[p] && keyOf[p] + f <= k
    ensures |f| <= size && (|f| < size ==> k == keyOf[p] + f)
    decreases |k|
  {
    hide TreeOk, ParentKey, LastPage;
    var q, e := ParentKey(k, size), LastPage(k, size);
    KeySplits(k, size);
    ParentLive(sh, block, at, keyOf, size, p, k);
    PrefixSplits(keyOf[p], q, e, size);
    if keyOf[p] == q {
      f := e;
    } else {
      f := Descend(sh, block, at, keyOf, size, p, q);
      BoundaryGap(|keyOf[p]|, |f|, |q|, size);
      PrefixOfPrefix(keyOf[p] + f, q, k);
    }
  }

  lemma PrefixSplits(p: Key, q: Key, e: Page, size: nat)
    requires size > 0 && p <= q + e && p != q + e && |p| % size == 0 && |q| % size == 0 && |e| <= size
    ensures p <= q && q <= q + e
  {
    BoundaryOrder(|p|, |q|, |e|, size);
  }

  lemma BoundaryOrder(a: nat, q: nat, e: nat, size: nat)
    requires size > 0 && a % size == 0 && q % size == 0 && a < q + e && e <= size
    ensures a <= q
  {
    DivisionBounds(a, size);
    DivisionBounds(q, size);
    MulMonotone(q / size + 1, a / size, size);
    MulMonotone(a / size, q / size, size);
    MulMonotone(q / size, q / size, size);
  }

  lemma BoundaryGap(a: nat, f: nat, q: nat, size: nat)
    requires size > 0 && a % size == 0 && q % size == 0
    ensures 0 < f < size ==> q != a + f
  {
    DivisionBounds(a, size);
    if 0 < f < size {
      QuotientUnique(a + f, size, a / size);
      DivisionBounds(a + f, size);
    }
  }

  lemma ParentLive(sh: Shape, block: map<nat, nat>, at: map<Key, nat>, keyOf: map<nat, Key>, size: nat, p: nat, k: Key)
    requires size > 0 && TreeOk(sh, block, at, keyOf, size) && p in keyOf && k in at && k != []
    ensures ParentKey(k, size) in at && p in sh.children
    ensures ParentKey(k, size) == keyOf[p] ==> LastPage(k, size) in sh.children[p]
    ensures forall e :: e in sh.children[p] ==> 0 < |e| <= size
  {
    ParentsNamed(sh, at, keyOf, size);
    KeySplits(k, size);
    hide ParentKey, LastPage, Upward, Searchable;
    assert NodeDown(sh.children[p], at, keyOf[p], size);
  }

  // ---- The next name ----

  ghost predicate Ahead(f: Page, bound: Option<Page>) {
    bound.None? || Less(bound.value, f)
  }

  ghost predicate IsLeastAhead(edges: set<Page>, bound: Option<Page>, r: Option<Page>) {
    && (r.Some? ==> r.value in edges && Ahead(r.value, bound) && forall f :: f in edges && Ahead(f, bound) && f != r.value ==> Less(r.value, f))
    && (r.None? ==> forall f :: f in edges ==> !Ahead(f, bound))
  }

  /** begin() or upper_bound() of an ordered edge map. */
  method LeastAhead(edges: set<Page>, bound: Option<Page>) returns (r: Option<Page>)
    ensures IsLeastAhead(edges, bound, r)
  {
    r := None;
    var rest := edges;
    ghost var seen: set<Page> := {};
    while rest != {}
      invariant seen + rest == edges && seen !! rest
      invariant IsLeastAhead(seen, bound, r)
      decreases |rest|
    {
      var e :| e in rest;
      LeastAheadAdd(seen, bound, r, e);
      if (bound.None? || Less(bound.value, e)) && (r.None? || Less(e, r.value)) {
        r := Some(e);
      }
      rest, seen := rest - {e}, seen + {e};
    }
    assert seen == edges;
  }

  lemma LeastAheadAdd(edges: set<Page>, bound: Option<Page>, r: Option<Page>, e: Page)
    requires IsLeastAhead(edges, bound, r) && e !in edges
    ensures IsLeastAhead(edges + {e}, bound, if Ahead(e, bound) && (r.None? || Less(e, r.value)) then Some(e) else r)
  {
    if r.Some? {
      LessTotal(e, r.value);
      forall f | f in edges && f != r.value && Ahead(f, bound) && Less(e, r.value) ensures Less(e, f) {
        LessTransitive(e, r.value, f);
      }
    }
  }

  /** `r` is the least live name after `k`. */
  ghost predicate IsSuccessor(at: map<Key, nat>, k: Key, r: Option<Key>) {
    && (r.Some? ==> r.value in at && Less(k, r.value) && forall x :: x in at && Less(k, x) ==> !Less(x, r.value))
    && (r.None? ==> forall x :: x in at ==> !Less(k, x))
  }

  /** Nothing after `k` is left in the subtree of `p`. */
  ghost predicate Exhausted(at: map<Key, nat>, p: Key, k: Key, size: nat)
    requires size > 0
  {
    forall x :: x in at && InSubtree(p, x, size) ==> !Less(k, x)
  }

  lemma ChildlessExhausted(sh: Shape, block: map<nat, nat>, at: map<Key, nat>, keyOf: map<nat, Key>, size: nat, n: nat)
    requires size > 0 && TreeOk(sh, block, at, keyOf, size) && n in keyOf && n in sh.children && sh.children[n] == map[]
    ensures Exhausted(at, keyOf[n], keyOf[n], size)
  {
    hide TreeOk;
    LessTotal(keyOf[n], keyOf[n]);
    forall x | x in at && InSubtree(keyOf[n], x, size) ensures x == keyOf[n] {
      if x != keyOf[n] {
        var f := Descend(sh, block, at, keyOf, size, n, x);
        assert false;
      }
    }
  }

  lemma LessBelow(a: Key, b: Key, x: Key, k: Key)
    requires Less(a, b) && !(a <= b) && a <= x && b <= k
    ensures !Less(k, x)
  {
    hide Less;
    LongerThenLess(a, b, x);
    LessThenLonger(x, b, k);
    LessTotal(x, k);
  }

  lemma ProperPrefix(a: Key, b: Key)
    requires a <= b && Less(a, b)
    ensures |a| < |b|
  {
    LessTotal(a, b);
    assert |a| == |b| ==> a == b;
  }

  lemma PrefixOfPrefix(a: Key, b: Key, c: Key)
    requires a <= b && b <= c
    ensures a <= c
  {
    assert a == b[..|a|] == c[..|b|][..|a|] == c[..|a|];
  }

  /** A subtree on an earlier edge lies before `k`. */
  lemma EarlierEdge(p: Key, g: Page, e: Page, x: Key, k: Key, size: nat)
    requires Less(g, e) && p + e <= k && p + g <= x && |e| <= size && (|g| < size ==> x == p + g)
    ensures !Less(k, x)
  {
    hide Less;
    LessCommonFront(p, g, e);
    SharedFront(p, g, e);
    if g <= e {
      ProperPrefix(g, e);
      PrefixOfPrefix(x, p + e, k);
      PrefixNotLess(x, k);
    } else {
      LessBelow(p + g, p + e, x, k);
    }
  }

  /** Past an exhausted child, what is still ahead below the parent runs through a later edge. */
  lemma LaterEdge(at: map<Key, nat>, p: Key, g: Page, e: Page, x: Key, k: Key, size: nat)
    requires size > 0 && p + e <= k && p + g <= x && |e| <= size && |p| % size == 0 && |g| <= size && (|g| < size ==> x == p + g)
    requires Exhausted(at, p + e, k, size) && x in at && Less(k, x)
    ensures Less(e, g)
  {
    LessTotal(e, g);
    ThroughEdge(p, g, x, size);
    if Less(g, e) {
      EarlierEdge(p, g, e, x, k, size);
    }
  }

  lemma ThroughEdge(p: Key, g: Page, x: Key, size: nat)
    requires size > 0 && |p| % size == 0 && p + g <= x && |g| <= size && (|g| < size ==> x == p + g)
    ensures InSubtree(p + g, x, size)
  {
    if |g| == size {
      NextBoundary(p, g, size);
    }
  }

  lemma NextBoundary(p: Key, g: Page, size: nat)
    requires size > 0 && |p| % size == 0 && |g| == size
    ensures |p + g| % size == 0
  {
    DivisionBounds(|p|, size);
    MulMonotone(|p| / size, |p| / size, size);
    MultipleOfSize(|p| / size + 1, size);
  }

  /** The walk stands at `p`, with `k` below it, having exhausted the child on edge `bound`, if any. */
  ghost predicate Standing(at: map<Key, nat>, p: Key, k: Key, bound: Option<Page>, size: nat)
    requires size > 0
  {
    && |p| % size == 0
    && (bound.None? ==> k == p)
    && (bound.Some? ==> 0 < |bound.value| <= size && InSubtree(p + bound.value, k, size) && Exhausted(at, p + bound.value, k, size))
  }

  lemma StandingBelow(at: map<Key, nat>, p: Key, k: Key, bound: Option<Page>, size: nat)
    requires size > 0 && Standing(at, p, k, bound, size)
    ensures p <= k
  {
    if bound.Some? {
      assert p == (p + bound.value)[..|p|] == k[..|p + bound.value|][..|p|] == k[..|p|];
    }
  }

  /** What is ahead below `p` starts with an edge ahead of the exhausted one. */
  lemma AheadBelow(sh: Shape, block: map<nat, nat>, at: map<Key, nat>, keyOf: map<nat, Key>, size: nat, n: nat, k: Key, bound: Option<Page>, x: Key) returns (g: Page)
    requires size > 0 && TreeOk(sh, block, at, keyOf, size) && n in keyOf && Standing(at, keyOf[n], k, bound, size)
    requires x in at && Less(k, x) && keyOf[n] <= x
    ensures n in sh.children && g in sh.children[n] && keyOf[n] + g <= x && Ahead(g, bound)
  {
    hide TreeOk, Exhausted;
    StandingBelow(at, keyOf[n], k, bound, size);
    PrefixNotLess(keyOf[n], k);
    g := Descend(sh, block, at, keyOf, size, n, x);
    if bound.Some? {
      LaterEdge(at, keyOf[n], g, bound.value, x, k, size);
    }
  }

  /** The first edge ahead leads to the successor. */
  lemma NextFound(sh: Shape, block: map<nat, nat>, at: map<Key, nat>, keyOf: map<nat, Key>, size: nat, n: nat, k: Key, bound: Option<Page>, f: Page)
    requires size > 0 && TreeOk(sh, block, at, keyOf, size) && n in keyOf && n in sh.children && Standing(at, keyOf[n], k, bound, size)
    requires IsLeastAhead(sh.children[n].Keys, bound, Some(f))
    ensures sh.children[n][f] in keyOf && keyOf[sh.children[n][f]] == keyOf[n] + f
    ensures IsSuccessor(at, k, Some(keyOf[n] + f))
  {
    var p := keyOf[n];
    EdgeChild(sh, block, at, keyOf, size, n, f);
    hide TreeOk;
    AfterBound(at, p, k, bound, f, size);
    forall x | x in at && Less(k, x) ensures !Less(x, p + f) {
      NotBetween(sh, block, at, keyOf, size, n, k, bound, f, x);
    }
  }

  lemma NotBetween(sh: Shape, block: map<nat, nat>, at: map<Key, nat>, keyOf: map<nat, Key>, size: nat, n: nat, k: Key, bound: Option<Page>, f: Page, x: Key)
    requires size > 0 && TreeOk(sh, block, at, keyOf, size) && n in keyOf && n in sh.children && Standing(at, keyOf[n], k, bound, size)
    requires IsLeastAhead(sh.children[n].Keys, bound, Some(f)) && x in at && Less(k, x)
    ensures !Less(x, keyOf[n] + f)
  {
    hide TreeOk, Standing;
    var p := keyOf[n];
    StandingBelow(at, p, k, bound, size);
    if p <= x {
      var g := AheadBelow(sh, block, at, keyOf, size, n, k, bound, x);
      if g == f {
        PrefixNotLess(p + f, x);
      } else {
        LessCommonFront(p, f, g);
        LessThenLonger(p + f, p + g, x);
        LessTotal(p + f, x);
      }
    } else {
      OutsideIsAfter(p, k, f, x);
      LessTotal(p + f, x);
    }
  }

  lemma EdgeChild(sh: Shape, block: map<nat, nat>, at: map<Key, nat>, keyOf: map<nat, Key>, size: nat, n: nat, f: Page)
    requires size > 0 && TreeOk(sh, block, at, keyOf, size) && n in keyOf && n in sh.children && f in sh.children[n]
    ensures sh.children[n][f] in keyOf && keyOf[sh.children[n][f]] == keyOf[n] + f && keyOf[n] + f in at
    ensures 0 < |f| <= size && |keyOf[n]| % size == 0
  {
    assert NodeDown(sh.children[n], at, keyOf[n], size);
    hide Upward, Searchable, Downward;
  }

  lemma AfterBound(at: map<Key, nat>, p: Key, k: Key, bound: Option<Page>, f: Page, size: nat)
    requires size > 0 && Standing(at, p, k, bound, size) && Ahead(f, bound) && 0 < |f| <= size
    ensures Less(k, p + f)
  {
    if bound.None? {
      PrefixNotLess(p, p + f);
    } else {
      var e := bound.value;
      LessCommonFront(p, e, f);
      SharedFront(p, e, f);
      hide Less, Exhausted;
      if e <= f {
        ProperPrefix(e, f);
        assert k == p + e || |p + e| % size == 0;
        PartialEnds(p, e, k, size);
      } else {
        LongerThenLess(p + e, p + f, k);
      }
    }
  }

  lemma PartialEnds(p: Key, e: Page, k: Key, size: nat)
    requires size > 0 && |p| % size == 0 && InSubtree(p + e, k, size) && 0 < |e| < size
    ensures k == p + e
  {
    if |p + e| % size == 0 {
      BoundaryGap(|p|, |e|, |p + e|, size);
    }
  }

  /** With no edge ahead the parent's subtree is exhausted too. */
  lemma NextNone(sh: Shape, block: map<nat, nat>, at: map<Key, nat>, keyOf: map<nat, Key>, size: nat, n: nat, k: Key, bound: Option<Page>)
    requires size > 0 && TreeOk(sh, block, at, keyOf, size) && n in keyOf && n in sh.children && Standing(at, keyOf[n], k, bound, size)
    requires IsLeastAhead(sh.children[n].Keys, bound, None)
    ensures Exhausted(at, keyOf[n], k, size) && InSubtree(keyOf[n], k, size)
  {
    StandingBelow(at, keyOf[n], k, bound, size);
    hide TreeOk, Standing;
    forall x | x in at && InSubtree(keyOf[n], x, size) ensures !Less(k, x) {
      if Less(k, x) {
        var g := AheadBelow(sh, block, at, keyOf, size, n, k, bound, x);
        assert false;
      }
    }
    assert |keyOf[n]| % size == 0 by {
      assert Standing(at, keyOf[n], k, bound, size);
    }
  }

  lemma ParentStanding(sh: Shape, block: map<nat, nat>, at: map<Key, nat>, keyOf: map<nat, Key>, size: nat, m: nat, k: Key)
    requires size > 0 && TreeOk(sh, block, at, keyOf, size) && m in keyOf && m != Root
    requires InSubtree(keyOf[m], k, size) && Exhausted(at, keyOf[m], k, size)
    ensures m in sh.parent && m in sh.edge && sh.parent[m] in keyOf && sh.parent[m] in sh.children
    ensures Standing(at, keyOf[sh.parent[m]], k, Some(sh.edge[m]), size) && |keyOf[sh.parent[m]]| < |keyOf[m]|
  {
    LiveNode(sh, block, at, keyOf, size, m);
    LiveNode(sh, block, at, keyOf, size, sh.parent[m]);
    hide TreeOk, Exhausted, InSubtree;
  }

  lemma RootExhausted(sh: Shape, block: map<nat, nat>, at: map<Key, nat>, keyOf: map<nat, Key>, size: nat, k: Key)
    requires size > 0 && TreeOk(sh, block, at, keyOf, size) && Root in keyOf && Exhausted(at, keyOf[Root], k, size)
    ensures IsSuccessor(at, k, None)
  {
    RootName(sh, block, at, keyOf, size);
    hide TreeOk;
    assert forall x :: x in at ==> InSubtree([], x, size);
  }

  // ---- An empty trie ----

  lemma {:induction false} LongestName(s: set<Key>) returns (m: Key)
    requires s != {}
    ensures m in s && forall x :: x in s ==> |x| <= |m|
  {
    m :| m in s;
    if s != {m} {
      var r := LongestName(s - {m});
      m := if |r| > |m| then r else m;
    }
  }

  lemma HeadListed(order: seq<nat>)
    ensures order == [] || order[0] in order
  {
  }

  /** Without leases and dead leaves only the root is left. */
  lemma OnlyRoot(ix: Index, at: map<Key, nat>, keyOf: map<nat, Key>, order: seq<nat>, size: nat)
    requires size > 0 && IndexOk(ix, at, keyOf, order, size) && NoDeadLeaf(ix, keyOf, None) && ix.block == map[]
    ensures ix.shape.nodes == 0 && keyOf.Keys == {Root} && FlatOf(ix, at, keyOf, order) == Flat(map[], [])
  {
    HeadListed(order);
    RootName(ix.shape, ix.block, at, keyOf, size);
    var m := LongestName(at.Keys);
    var n := at[m];
    LiveNode(ix.shape, ix.block, at, keyOf, size, n);
    ChildlessLongest(ix.shape, ix.block, at, keyOf, size, n);
    hide Upward, Downward, Searchable, Linked, HintOk, AddressesOk;
    assert !DeadLeaf(ix, keyOf, n);
    assert n == Root && m == [];
    forall x | x in keyOf ensures x == Root {
      assert |keyOf[x]| <= 0;
    }
    assert keyOf.Keys == {Root};
    assert |keyOf| == |keyOf.Keys|;
  }

  lemma ChildlessLongest(sh: Shape, block: map<nat, nat>, at: map<Key, nat>, keyOf: map<nat, Key>, size: nat, n: nat)
    requires size > 0 && TreeOk(sh, block, at, keyOf, size) && n in keyOf && forall x :: x in at ==> |x| <= |keyOf[n]|
    ensures n in sh.children && sh.children[n] == map[]
  {
    assert NodeDown(sh.children[n], at, keyOf[n], size);
    hide Upward, Searchable, Downward;
    assert forall e :: e in sh.children[n] ==> |keyOf[n] + e| > |keyOf[n]|;
  }
}
