/** The exact LRU order of the prefix cache: what reuse refreshes and what publishing keeps
    (miniprefix/src/kv/prefix_cache.cpp:49-59, 134, 176-192). */
module LruOrder {
  import opened Prelude
  import opened PageKeys
  import opened KvPool
  import opened FlatCache
  import opened PrefixMatch

  /** The keys that are not on the path, in their order. */
  function Keeping(lru: seq<Key>, path: seq<Key>): seq<Key> {
    if lru == [] then [] else (if lru[0] in path then [] else [lru[0]]) + Keeping(lru[1..], path)
  }

  lemma {:induction false} KeepingAll(lru: seq<Key>)
    ensures Keeping(lru, []) == lru
    decreases |lru|
  {
    if lru != [] {
      KeepingAll(lru[1..]);
    }
  }

  lemma {:induction false} KeepingMembers(lru: seq<Key>, path: seq<Key>)
    requires NoDuplicates(lru)
    ensures NoDuplicates(Keeping(lru, path)) && forall k :: k in Keeping(lru, path) <==> k in lru && k !in path
    decreases |lru|
  {
    if lru != [] {
      assert lru == [lru[0]] + lru[1..];
      KeepingMembers(lru[1..], path);
      assert lru[0] !in lru[1..];
    }
  }

  lemma {:induction false} KeepingAbsent(lru: seq<Key>, path: seq<Key>, x: Key)
    requires x !in lru
    ensures Keeping(lru, path + [x]) == Keeping(lru, path)
    decreases |lru|
  {
    if lru != [] {
      assert lru == [lru[0]] + lru[1..];
      KeepingAbsent(lru[1..], path, x);
    }
  }

  lemma {:induction false} WithoutAbsent(s: seq<Key>, x: Key)
    requires x !in s
    ensures Without(s, x) == s
    decreases |s|
  {
    if s != [] {
      assert s == [s[0]] + s[1..];
      WithoutAbsent(s[1..], x);
    }
  }

  /** One more key on the path is one key less to keep. */
  lemma {:induction false} KeepingMore(lru: seq<Key>, path: seq<Key>, x: Key)
    requires NoDuplicates(lru) && x !in path
    ensures Keeping(lru, path + [x]) == Without(Keeping(lru, path), x)
    decreases |lru|
  {
    if lru != [] {
      assert lru == [lru[0]] + lru[1..];
      assert lru[0] !in lru[1..];
      if lru[0] == x {
        KeepingAbsent(lru[1..], path, x);
        assert Keeping(lru, path) == [x] + Keeping(lru[1..], path);
      } else {
        KeepingMore(lru[1..], path, x);
        if lru[0] !in path {
          var rest := Keeping(lru[1..], path);
          assert Keeping(lru, path) == [lru[0]] + rest;
          assert ([lru[0]] + rest)[1..] == rest;
        } else {
          assert Keeping(lru, path) == Keeping(lru[1..], path);
        }
      }
    }
  }

  // ---- Reuse ----

  /** Refreshing a path makes it the newest part, in path order; the other keys keep their order. */
  lemma {:induction false} TouchAllOrder(c: Flat, capacity: nat, path: seq<Key>, n: nat)
    requires CacheOk(c, capacity) && NoDuplicates(path) && n <= |path| && forall i :: 0 <= i < |path| ==> path[i] in c.entries
    ensures TouchAll(c, path[..n]).lru == Keeping(c.lru, path[..n]) + path[..n]
    decreases n
  {
    hide CacheOk, NoDuplicates;
    if n == 0 {
      KeepingAll(c.lru);
    } else {
      var front, x := path[..n - 1], path[n - 1];
      assert path[..n] == front + [x];
      TouchAllOrder(c, capacity, path, n - 1);
      TouchAllLast(c, front, x);
      NotEarlier(c, capacity, path, n - 1);
      KeepingMore(c.lru, front, x);
      var kept := Keeping(c.lru, front);
      WithoutFront(kept, front, x);
      assert Without(kept, x) + front + [x] == Without(kept, x) + (front + [x]);
    }
  }

  lemma NotEarlier(c: Flat, capacity: nat, path: seq<Key>, n: nat)
    requires CacheOk(c, capacity) && NoDuplicates(path) && n < |path| && path[n] in c.entries
    ensures NoDuplicates(c.lru) && path[n] !in path[..n] && path[n] in Keeping(c.lru, path[..n])
  {
    KeepingMembers(c.lru, path[..n]);
  }

  lemma {:induction false} TouchAllLast(c: Flat, ks: seq<Key>, k: Key)
    ensures TouchAll(c, ks + [k]) == Touch(TouchAll(c, ks), k)
    decreases |ks|
  {
    hide Touch;
    if ks == [] {
      assert ks + [k] == [k];
      assert TouchAll(Touch(c, k), []) == Touch(c, k);
    } else {
      assert (ks + [k])[1..] == ks[1..] + [k];
      TouchAllLast(Touch(c, ks[0]), ks[1..], k);
    }
  }

  /** A lookup never names a page twice. */
  lemma PathDistinct(keys: set<Key>, prompt: seq<Token>, size: nat)
    requires size > 0
    ensures NoDuplicates(Lookup(keys, prompt, 0, size).path)
    ensures forall i :: 0 <= i < |Lookup(keys, prompt, 0, size).path| ==> Lookup(keys, prompt, 0, size).path[i] in keys
  {
    LookupPath(keys, prompt, 0, 0, size);
    var m := Lookup(keys, prompt, 0, size);
    hide Lookup, PageCount, PageEnd;
    forall i, j | 0 <= i < j < |m.path| ensures m.path[i] != m.path[j] {
      assert PageMatches(keys, prompt, m.length, i, size, m.path[i]) && PageMatches(keys, prompt, m.length, j, size, m.path[j]);
      LaterPage(i, j, size);
    }
    forall i | 0 <= i < |m.path| ensures m.path[i] in keys {
      assert PageMatches(keys, prompt, m.length, i, size, m.path[i]);
    }
  }

  lemma LaterPage(i: nat, j: nat, size: nat)
    requires i < j
    ensures i * size + size <= j * size
  {
    assert (i + 1) * size <= j * size;
  }

  // ---- Publish ----

  /** How many of the other keys a path of `n` displaces. */
  function Displaced(others: nat, n: nat, capacity: nat): nat {
    if others + n > capacity then others + n - capacity else 0
  }

  /** The order after a path was published: as many of the other keys as still fit, the newest of them, then the path. */
  ghost predicate Published(before: seq<Key>, after: seq<Key>, path: seq<Key>, capacity: nat) {
    var others := Keeping(before, path);
    var k := Displaced(|others|, |path|, capacity);
    k <= |others| && after == others[k..] + path
  }

  lemma PublishedMore(before: seq<Key>, lru: seq<Key>, path: seq<Key>, capacity: nat, x: Key, after: seq<Key>)
    requires NoDuplicates(before) && |before| <= capacity && |path| < capacity && x !in path && Published(before, lru, path, capacity)
    requires if x in lru then after == Without(lru, x) + [x]
             else if |lru| == capacity then after == lru[1..] + [x] else after == lru + [x]
    ensures Published(before, after, path + [x], capacity)
  {
    var others := Keeping(before, path);
    var k := Displaced(|others|, |path|, capacity);
    KeepingMembers(before, path);
    KeepingMore(before, path, x);
    hide Keeping, Published;
    Displace(others, path, capacity, x, k, after);
    assert Published(before, after, path + [x], capacity) by {
      Spell(before, after, path + [x], capacity);
    }
  }

  lemma Spell(before: seq<Key>, after: seq<Key>, path: seq<Key>, capacity: nat)
    requires var others := Keeping(before, path);
      var k := Displaced(|others|, |path|, capacity);
      k <= |others| && after == others[k..] + path
    ensures Published(before, after, path, capacity)
  {
  }

  lemma Displace(others: seq<Key>, path: seq<Key>, capacity: nat, x: Key, k: nat, after: seq<Key>)
    requires NoDuplicates(others) && |path| < capacity && x !in path && k == Displaced(|others|, |path|, capacity) && k <= |others|
    requires var lru := others[k..] + path;
      if x in lru then after == Without(lru, x) + [x] else if |lru| == capacity then after == lru[1..] + [x] else after == lru + [x]
    ensures var fewer := Without(others, x);
      var d := Displaced(|fewer|, |path| + 1, capacity);
      d <= |fewer| && after == fewer[d..] + (path + [x])
  {
    hide Displaced;
    if x in others {
      var i :| 0 <= i < |others| && others[i] == x;
      if i >= k {
        DisplaceKept(others, path, capacity, i, k, after);
      } else {
        DisplaceGone(others, path, capacity, i, k, after);
      }
    } else {
      DisplaceNew(others, path, capacity, x, k, after);
    }
  }

  /** The key is still cached. */
  lemma DisplaceKept(others: seq<Key>, path: seq<Key>, capacity: nat, i: nat, k: nat, after: seq<Key>)
    requires NoDuplicates(others) && k == Displaced(|others|, |path|, capacity) && k <= i < |others|
    requires var lru := others[k..] + path; others[i] in lru ==> after == Without(lru, others[i]) + [others[i]]
    ensures var fewer := Without(others, others[i]);
      var d := Displaced(|fewer|, |path| + 1, capacity);
      d <= |fewer| && after == fewer[d..] + (path + [others[i]])
  {
    var x, rest := others[i], others[k..];
    assert rest[i - k] == x;
    WithoutFront(rest, path, x);
    WithoutAt(others, i);
    WithoutAt(rest, i - k);
    hide Without, NoDuplicates;
    CutSame(others, i, k);
    Regroup(Without(rest, x), path, x);
  }

  lemma Regroup(a: seq<Key>, b: seq<Key>, x: Key)
    ensures (a + b) + [x] == a + (b + [x])
  {
  }

  lemma CutSame(s: seq<Key>, i: nat, k: nat)
    requires k <= i < |s|
    ensures (s[..i] + s[i + 1..])[k..] == s[k..][..i - k] + s[k..][i - k + 1..]
  {
  }

  /** The key was already displaced, so the cache is full. */
  lemma DisplaceGone(others: seq<Key>, path: seq<Key>, capacity: nat, i: nat, k: nat, after: seq<Key>)
    requires k == Displaced(|others|, |path|, capacity) && i < k <= |others| && NoDuplicates(others) && |path| < capacity && others[i] !in path
    requires var lru := others[k..] + path; others[i] !in lru ==> |lru| == capacity ==> after == lru[1..] + [others[i]]
    ensures var fewer := Without(others, others[i]);
      var d := Displaced(|fewer|, |path| + 1, capacity);
      d <= |fewer| && after == fewer[d..] + (path + [others[i]])
  {
    var x, lru := others[i], others[k..] + path;
    NotLater(others, i, k);
    WithoutAt(others, i);
    hide Without, NoDuplicates;
    assert x !in lru && |lru| == capacity;
    assert lru[1..] == others[k + 1..] + path;
    assert (others[..i] + others[i + 1..])[k..] == others[k + 1..];
    assert (others[k + 1..] + path) + [x] == others[k + 1..] + (path + [x]);
  }

  lemma NotLater(s: seq<Key>, i: nat, k: nat)
    requires NoDuplicates(s) && i < k <= |s|
    ensures s[i] !in s[k..]
  {
  }

  /** The key was never cached. */
  lemma DisplaceNew(others: seq<Key>, path: seq<Key>, capacity: nat, x: Key, k: nat, after: seq<Key>)
    requires |path| < capacity && x !in path && x !in others && k == Displaced(|others|, |path|, capacity) && k <= |others|
    requires var lru := others[k..] + path;
      x !in lru ==> after == (if |lru| == capacity then lru[1..] else lru) + [x]
    ensures var fewer := Without(others, x);
      var d := Displaced(|fewer|, |path| + 1, capacity);
      d <= |fewer| && after == fewer[d..] + (path + [x])
  {
    WithoutAbsent(others, x);
    hide Without;
    var lru := others[k..] + path;
    assert x !in lru;
    if |lru| == capacity {
      assert lru[1..] == others[k + 1..] + path;
      assert (others[k + 1..] + path) + [x] == others[k + 1..] + (path + [x]);
    } else {
      assert k == 0;
      assert lru + [x] == others[0..] + (path + [x]);
    }
  }

  /** Publishing keeps exactly the most recent keys: the published path newest, then the other keys by age, up to capacity. */
  lemma {:induction false} PublishPagesOrder(s: Stock, capacity: nat, size: nat, others: multiset<nat>, tokens: seq<Token>, table: seq<nat>, n: nat)
    requires StockOk(s, capacity, others) && size > 0 && n <= |table| && n <= capacity && n <= PageCount(|tokens|, size)
    requires forall j :: 0 <= j < |table| ==> table[j] in others
    ensures Published(s.cache.lru, PublishPages(s, capacity, size, tokens, table, n).cache.lru, PathKeys(tokens, size, n), capacity)
    decreases n
  {
    hide StockOk, PageCount, PageKey, PathKeys, Published, PublishPage;
    CacheOrder(s, capacity, others);
    if n == 0 {
      NonePublished(s, capacity, tokens, size);
    } else {
      PublishPagesOrder(s, capacity, size, others, tokens, table, n - 1);
      PublishPagesOk(s, capacity, size, others, tokens, table, n - 1);
      var before := PublishPages(s, capacity, size, tokens, table, n - 1);
      var key := PageKey(tokens, n - 1, size);
      PathKeysStep(tokens, size, n);
      PublishPageOrder(before, capacity, others, key, table[n - 1]);
      PublishedMore(s.cache.lru, before.cache.lru, PathKeys(tokens, size, n - 1), capacity, key,
                    PublishPage(before, capacity, key, table[n - 1]).cache.lru);
    }
  }

  lemma CacheOrder(s: Stock, capacity: nat, others: multiset<nat>)
    requires StockOk(s, capacity, others)
    ensures NoDuplicates(s.cache.lru) && |s.cache.lru| <= capacity
  {
    hide Counts, Leased;
  }

  lemma NonePublished(s: Stock, capacity: nat, tokens: seq<Token>, size: nat)
    requires |s.cache.lru| <= capacity
    ensures Published(s.cache.lru, s.cache.lru, PathKeys(tokens, size, 0), capacity)
  {
    KeepingAll(s.cache.lru);
    assert PathKeys(tokens, size, 0) == [];
  }

  lemma PublishPageOrder(s: Stock, capacity: nat, others: multiset<nat>, key: Key, page: nat)
    requires StockOk(s, capacity, others) && capacity > 0
    ensures var lru, after := s.cache.lru, PublishPage(s, capacity, key, page).cache.lru;
      if key in lru then after == Without(lru, key) + [key] else if |lru| == capacity then after == lru[1..] + [key] else after == lru + [key]
  {
    hide Counts, Leased, NoDuplicates, Retain, Unref;
    if s.cache.lru != [] {
      assert s.cache.lru[0] in s.cache.lru;
    }
  }

  /** Other keys keep their pages; a published key has the page of the table, or the one it had. */
  lemma {:induction false} PublishPagesEntries(s: Stock, capacity: nat, size: nat, others: multiset<nat>, tokens: seq<Token>, table: seq<nat>, n: nat)
    requires StockOk(s, capacity, others) && size > 0 && n <= |table| && n <= capacity && n <= PageCount(|tokens|, size)
    requires forall j :: 0 <= j < |table| ==> table[j] in others
    ensures PagesKept(s.cache.entries, PublishPages(s, capacity, size, tokens, table, n).cache.entries, tokens, table, size, n)
    decreases n
  {
    hide StockOk, PageCount, PageKey, PublishPage;
    if n > 0 {
      PublishPagesEntries(s, capacity, size, others, tokens, table, n - 1);
      PublishPagesOk(s, capacity, size, others, tokens, table, n - 1);
      var before := PublishPages(s, capacity, size, tokens, table, n - 1);
      PublishPageEntries(before, capacity, others, PageKey(tokens, n - 1, size), table[n - 1]);
    }
  }

  ghost predicate PagesKept(before: map<Key, nat>, after: map<Key, nat>, tokens: seq<Token>, table: seq<nat>, size: nat, n: nat)
    requires n <= |table|
  {
    forall k :: k in after ==> (k in before && after[k] == before[k]) || exists j :: 0 <= j < n && PageKey(tokens, j, size) == k && after[k] == table[j]
  }

  lemma PublishPageEntries(s: Stock, capacity: nat, others: multiset<nat>, key: Key, page: nat)
    requires StockOk(s, capacity, others)
    ensures var after := PublishPage(s, capacity, key, page).cache.entries;
      forall k :: k in after ==> (k in s.cache.entries && after[k] == s.cache.entries[k]) || (k == key && after[k] == page)
  {
    hide Counts, Leased, NoDuplicates, Retain, Unref;
  }
}
