/** The prefix cache as a flat table: whole token history -> page, plus one LRU order.
    This is the exact-history oracle of miniprefix/tests/partial_prefix_reference.h; the trie refines it. */
module FlatCache {
  import opened Prelude
  import opened PageKeys
  import opened KvPool

  /** `lru` lists the leased keys, oldest first. */
  datatype Flat = Flat(entries: map<Key, nat>, lru: seq<Key>)

  datatype Stock = Stock(pool: Pool, cache: Flat)

  ghost predicate CacheOk(c: Flat, capacity: nat) {
    && NoDuplicates(c.lru)
    && (forall k :: k in c.lru <==> k in c.entries)
    && |c.lru| <= capacity
    && [] !in c.entries
  }

  ghost function LeaseTable(entries: map<Key, nat>): map<Key, seq<nat>> {
    map k | k in entries :: [entries[k]]
  }

  ghost function Leased(entries: map<Key, nat>): multiset<nat> {
    Bag(LeaseTable(entries))
  }

  /** Pool counts explained by the cache leases and everybody else's pages. */
  ghost predicate StockOk(s: Stock, capacity: nat, others: multiset<nat>) {
    CacheOk(s.cache, capacity) && Counts(s.pool, others + Leased(s.cache.entries))
  }

  function Without<T(==)>(s: seq<T>, x: T): seq<T> {
    if s == [] then [] else if s[0] == x then s[1..] else [s[0]] + Without(s[1..], x)
  }

  function Touch(c: Flat, k: Key): Flat {
    Flat(c.entries, Without(c.lru, k) + [k])
  }

  function TouchAll(c: Flat, ks: seq<Key>): Flat
    decreases |ks|
  {
    if ks == [] then c else TouchAll(Touch(c, ks[0]), ks[1..])
  }

  /** The pages leased under the given names. */
  ghost function FoundBlocks(c: Flat, path: seq<Key>): (r: seq<nat>)
    ensures |r| == |path|
  {
    seq(|path|, i requires 0 <= i < |path| => if path[i] in c.entries then c.entries[path[i]] else 0)
  }

  /** Drops the oldest lease, if any. */
  function Evict(s: Stock): Stock {
    if s.cache.lru == [] || s.cache.lru[0] !in s.cache.entries then s
    else
      var k := s.cache.lru[0];
      Stock(Unref(s.pool, s.cache.entries[k]), Flat(s.cache.entries - {k}, s.cache.lru[1..]))
  }

  /** Refreshes the key, or leases `page` under it after making room. */
  function PublishPage(s: Stock, capacity: nat, key: Key, page: nat): Stock {
    if key in s.cache.entries then s.(cache := Touch(s.cache, key))
    else
      var retained := s.(pool := Retain(s.pool, page));
      var room := if |s.cache.lru| == capacity then Evict(retained) else retained;
      room.(cache := Flat(room.cache.entries[key := page], room.cache.lru + [key]))
  }

  function PublishCount(tokens: seq<Token>, table: seq<nat>, size: nat, capacity: nat): (n: nat)
    requires size > 0
    ensures n <= |table| && n <= capacity && n <= PageCount(|tokens|, size)
  {
    var pages := PageCount(|tokens|, size);
    var bounded := if pages < capacity then pages else capacity;
    if |table| < bounded then |table| else bounded
  }

  /** The first `n` pages published in order. */
  function PublishPages(s: Stock, capacity: nat, size: nat, tokens: seq<Token>, table: seq<nat>, n: nat): Stock
    requires n <= |table|
  {
    if n == 0 then s
    else
      PublishPage(PublishPages(s, capacity, size, tokens, table, n - 1), capacity, PageKey(tokens, n - 1, size), table[n - 1])
  }

  function Publish(s: Stock, capacity: nat, size: nat, tokens: seq<Token>, table: seq<nat>): Stock
    requires size > 0
  {
    PublishPages(s, capacity, size, tokens, table, PublishCount(tokens, table, size, capacity))
  }

  // ---- LRU order ----

  lemma {:induction false} WithoutProperties<T>(s: seq<T>, x: T)
    requires NoDuplicates(s) && x in s
    ensures |Without(s, x)| == |s| - 1
    ensures NoDuplicates(Without(s, x)) && x !in Without(s, x)
    ensures forall y :: y in Without(s, x) <==> y in s && y != x
    decreases |s|
  {
    if s[0] == x {
      assert s == [x] + s[1..];
    } else {
      assert s == [s[0]] + s[1..];
      assert s[0] !in s[1..];
      WithoutProperties(s[1..], x);
    }
  }

  lemma {:induction false} WithoutAt<T>(s: seq<T>, i: nat)
    requires NoDuplicates(s) && i < |s|
    ensures Without(s, s[i]) == s[..i] + s[i + 1..]
    decreases |s|
  {
    if i > 0 {
      var t := s[1..];
      WithoutAt(t, i - 1);
      assert t[..i - 1] + t[i..] == s[1..i] + s[i + 1..];
      assert s[..i] == [s[0]] + s[1..i];
    } else {
      assert s[..0] + s[1..] == s[1..];
    }
  }

  lemma {:induction false} WithoutFront<T>(a: seq<T>, b: seq<T>, x: T)
    requires x in a
    ensures Without(a + b, x) == Without(a, x) + b
    decreases |a|
  {
    if a[0] == x {
      assert (a + b)[1..] == a[1..] + b;
    } else {
      assert a == [a[0]] + a[1..];
      WithoutFront(a[1..], b, x);
      assert (a + b)[1..] == a[1..] + b;
    }
  }

  lemma TouchOk(c: Flat, capacity: nat, k: Key)
    requires CacheOk(c, capacity) && k in c.entries
    ensures CacheOk(Touch(c, k), capacity)
  {
    WithoutProperties(c.lru, k);
    var t := Touch(c, k);
    forall y ensures y in t.lru <==> y in c.entries {
      assert y in t.lru <==> y in Without(c.lru, k) || y == k;
    }
  }

  lemma {:induction false} TouchAllOk(c: Flat, capacity: nat, ks: seq<Key>)
    requires CacheOk(c, capacity) && forall i :: 0 <= i < |ks| ==> ks[i] in c.entries
    ensures CacheOk(TouchAll(c, ks), capacity) && TouchAll(c, ks).entries == c.entries
    decreases |ks|
  {
    if ks != [] {
      TouchOk(c, capacity, ks[0]);
      TouchAllOk(Touch(c, ks[0]), capacity, ks[1..]);
    }
  }

  // ---- Leases ----

  lemma LeaseTableRemove(entries: map<Key, nat>, k: Key)
    ensures LeaseTable(entries - {k}) == LeaseTable(entries) - {k}
    ensures k in entries ==> k in LeaseTable(entries) && LeaseTable(entries)[k] == [entries[k]]
  {
  }

  lemma LeasedRemove(entries: map<Key, nat>, k: Key)
    requires k in entries
    ensures Leased(entries) == Leased(entries - {k}) + multiset{entries[k]}
  {
    LeaseTableRemove(entries, k);
    hide LeaseTable;
    BagRemove(LeaseTable(entries), k);
    hide Bag;
    assert multiset([entries[k]]) == multiset{entries[k]};
  }

  lemma LeasedInsert(entries: map<Key, nat>, k: Key, page: nat)
    requires k !in entries
    ensures Leased(entries[k := page]) == Leased(entries) + multiset{page}
  {
    LeasedRemove(entries[k := page], k);
    assert entries[k := page] - {k} == entries;
  }

  lemma LeasedMember(entries: map<Key, nat>, k: Key)
    requires k in entries
    ensures entries[k] in Leased(entries)
  {
    LeasedRemove(entries, k);
  }

  /** Giving up any one lease keeps every count explained. */
  lemma DropLeaseOk(s: Stock, capacity: nat, others: multiset<nat>, k: Key)
    requires StockOk(s, capacity, others) && k in s.cache.entries
    ensures var b := s.cache.entries[k];
      && b < |s.pool.refs| && s.pool.refs[b] > 0
      && StockOk(Stock(Unref(s.pool, b), Flat(s.cache.entries - {k}, Without(s.cache.lru, k))), capacity, others)
  {
    hide Counts, Leased, Unref, Without;
    var page := s.cache.entries[k];
    LeasedRemove(s.cache.entries, k);
    var held := others + Leased(s.cache.entries);
    UnrefCounts(s.pool, held, page);
    assert held - multiset{page} == others + Leased(s.cache.entries - {k});
    WithoutProperties(s.cache.lru, k);
  }

  lemma EvictOk(s: Stock, capacity: nat, others: multiset<nat>)
    requires StockOk(s, capacity, others) && s.cache.lru != []
    ensures s.cache.lru[0] in s.cache.entries
    ensures StockOk(Evict(s), capacity, others)
    ensures |Evict(s).cache.lru| == |s.cache.lru| - 1
  {
    var k := s.cache.lru[0];
    assert k in s.cache.lru;
    var page := s.cache.entries[k];
    LeasedRemove(s.cache.entries, k);
    var held := others + Leased(s.cache.entries);
    UnrefCounts(s.pool, held, page);
    assert held - multiset{page} == others + Leased(s.cache.entries - {k});
    hide Counts, Leased;
    EvictCacheOk(s.cache, capacity);
  }

  lemma EvictCacheOk(c: Flat, capacity: nat)
    requires CacheOk(c, capacity) && c.lru != []
    ensures CacheOk(Flat(c.entries - {c.lru[0]}, c.lru[1..]), capacity)
  {
    var k := c.lru[0];
    forall y ensures y in c.lru[1..] <==> y in c.entries - {k} {
      assert c.lru == [k] + c.lru[1..];
    }
  }

  lemma InsertCacheOk(c: Flat, capacity: nat, key: Key, page: nat)
    requires CacheOk(c, capacity) && key !in c.entries && key != [] && |c.lru| < capacity
    ensures CacheOk(Flat(c.entries[key := page], c.lru + [key]), capacity)
  {
  }

  /** Publishing one page keeps every count explained: the cache only ever adds or drops its own lease. */
  lemma PublishPageOk(s: Stock, capacity: nat, others: multiset<nat>, key: Key, page: nat)
    requires StockOk(s, capacity, others) && key != [] && capacity > 0 && page in others
    ensures StockOk(PublishPage(s, capacity, key, page), capacity, others)
    ensures key in PublishPage(s, capacity, key, page).cache.entries
  {
    if key in s.cache.entries {
      TouchOk(s.cache, capacity, key);
    } else {
      var held := others + Leased(s.cache.entries);
      RetainCounts(s.pool, held, page);
      var retained := s.(pool := Retain(s.pool, page));
      var more := others + multiset{page};
      assert held + multiset{page} == more + Leased(s.cache.entries);
      var room := if |s.cache.lru| == capacity then Evict(retained) else retained;
      if |s.cache.lru| == capacity {
        EvictOk(retained, capacity, more);
      }
      assert StockOk(room, capacity, more);
      PublishInsertOk(room, capacity, others, key, page);
    }
  }

  lemma PublishInsertOk(room: Stock, capacity: nat, others: multiset<nat>, key: Key, page: nat)
    requires StockOk(room, capacity, others + multiset{page}) && key != [] && key !in room.cache.entries && |room.cache.lru| < capacity
    ensures StockOk(room.(cache := Flat(room.cache.entries[key := page], room.cache.lru + [key])), capacity, others)
  {
    hide Counts;
    InsertCacheOk(room.cache, capacity, key, page);
    LeasedInsert(room.cache.entries, key, page);
    assert others + multiset{page} + Leased(room.cache.entries) == others + Leased(room.cache.entries[key := page]);
  }

  // ---- The published path ----

  ghost function PathKeys(tokens: seq<Token>, size: nat, n: nat): (r: seq<Key>)
    ensures |r| == n
  {
    seq(n, j requires 0 <= j < n => PageKey(tokens, j, size))
  }

  lemma PathKeysStep(tokens: seq<Token>, size: nat, n: nat)
    requires size > 0 && 0 < n <= PageCount(|tokens|, size)
    ensures PageKey(tokens, n - 1, size) != []
    ensures PageKey(tokens, n - 1, size) !in PathKeys(tokens, size, n - 1)
    ensures PathKeys(tokens, size, n) == PathKeys(tokens, size, n - 1) + [PageKey(tokens, n - 1, size)]
  {
    PageKeyBounds(tokens, n - 1, size);
    var path := PathKeys(tokens, size, n - 1);
    forall i | 0 <= i < |path| ensures path[i] != PageKey(tokens, n - 1, size) {
      PageKeysDiffer(tokens, i, n - 1, size);
    }
  }

  /** `newest` are the last entries of the LRU order. */
  ghost predicate Newest(lru: seq<Key>, newest: seq<Key>) {
    |newest| <= |lru| && lru[|lru| - |newest|..] == newest
  }

  lemma NewestNone(lru: seq<Key>, tokens: seq<Token>, size: nat)
    ensures Newest(lru, PathKeys(tokens, size, 0))
  {
  }

  lemma TouchKeepsNewest(lru: seq<Key>, newest: seq<Key>, key: Key)
    requires Newest(lru, newest) && key in lru && key !in newest
    ensures Newest(Without(lru, key) + [key], newest + [key])
  {
    var older := lru[..|lru| - |newest|];
    assert lru == older + newest;
    WithoutFront(older, newest, key);
    var w := Without(older, key);
    var t := w + newest + [key];
    assert t[|w|..] == newest + [key];
  }

  lemma AppendKeepsNewest(lru: seq<Key>, newest: seq<Key>, key: Key)
    requires Newest(lru, newest)
    ensures Newest(lru + [key], newest + [key])
  {
    var t := lru + [key];
    assert t[|t| - |newest| - 1..] == lru[|lru| - |newest|..] + [key];
  }

  lemma EvictKeepsNewest(lru: seq<Key>, newest: seq<Key>)
    requires Newest(lru, newest) && |newest| < |lru|
    ensures Newest(lru[1..], newest)
  {
  }

  lemma PublishPageNewest(s: Stock, capacity: nat, others: multiset<nat>, key: Key, page: nat, newest: seq<Key>)
    requires StockOk(s, capacity, others) && key != [] && page in others
    requires Newest(s.cache.lru, newest) && key !in newest && |newest| < capacity
    ensures Newest(PublishPage(s, capacity, key, page).cache.lru, newest + [key])
  {
    hide Counts, Leased;
    if key in s.cache.entries {
      TouchKeepsNewest(s.cache.lru, newest, key);
    } else if |s.cache.lru| == capacity {
      assert s.cache.lru[0] in s.cache.lru;
      EvictKeepsNewest(s.cache.lru, newest);
      AppendKeepsNewest(s.cache.lru[1..], newest, key);
    } else {
      AppendKeepsNewest(s.cache.lru, newest, key);
    }
  }

  /** After publishing, exactly the published page names are the newest leases, in path order; none of
      them was lost to the evictions they caused, the capacity holds, and every count is still explained. */
  lemma {:induction false} PublishPagesOk(s: Stock, capacity: nat, size: nat, others: multiset<nat>,
                                          tokens: seq<Token>, table: seq<nat>, n: nat)
    requires StockOk(s, capacity, others) && size > 0
    requires n <= |table| && n <= capacity && n <= PageCount(|tokens|, size)
    requires forall j :: 0 <= j < |table| ==> table[j] in others
    ensures StockOk(PublishPages(s, capacity, size, tokens, table, n), capacity, others)
    ensures Newest(PublishPages(s, capacity, size, tokens, table, n).cache.lru, PathKeys(tokens, size, n))
    decreases n
  {
    hide Counts, Leased, PageCount, PageKey, PathKeys, CacheOk, Newest, NoDuplicates, StockOk, PublishPage;
    if n == 0 {
      NewestNone(s.cache.lru, tokens, size);
    } else {
      PublishPagesOk(s, capacity, size, others, tokens, table, n - 1);
      var before := PublishPages(s, capacity, size, tokens, table, n - 1);
      var key := PageKey(tokens, n - 1, size);
      PathKeysStep(tokens, size, n);
      PublishPageOk(before, capacity, others, key, table[n - 1]);
      PublishPageNewest(before, capacity, others, key, table[n - 1], PathKeys(tokens, size, n - 1));
    }
  }
}
