/** Longest-prefix lookup, one page per level (ExactPrefixCache::reuse), specified by exhaustive search. */
module PrefixMatch {
  import opened Arithmetic
  import opened Prelude
  import opened PageKeys
  import opened LexOrder

  /** The next at most `size` prompt tokens after `count`, never reaching past `limit`, with everything before them. */
  function Query(prompt: seq<Token>, count: nat, size: nat): seq<Token>
    requires count < |prompt|
  {
    Front(prompt[..|prompt| - 1], count + size)
  }

  /** `k` extends the first `count` tokens by at most one page and shares at least one more token. */
  predicate Candidate(k: Key, query: seq<Token>, count: nat, size: nat) {
    |k| <= count + size && Lcp(k, query) > count
  }

  /** The tie rule: keys not before the query first, nearest to the query first. */
  predicate Nearer(a: Key, b: Key, query: seq<Token>) {
    if Less(a, query) == Less(b, query) then (if Less(a, query) then Less(b, a) else Less(a, b)) else Less(b, query)
  }

  /** The longest match over all entries, ties broken by `Nearer`. */
  ghost predicate Best(keys: set<Key>, query: seq<Token>, count: nat, size: nat, k: Key) {
    && k in keys && Candidate(k, query, count, size)
    && forall x :: x in keys && x != k && Candidate(x, query, count, size) ==>
         Lcp(x, query) < Lcp(k, query) || (Lcp(x, query) == Lcp(k, query) && Nearer(k, x, query))
  }

  lemma BestUnique(keys: set<Key>, query: seq<Token>, count: nat, size: nat, a: Key, b: Key)
    requires Best(keys, query, count, size, a) && Best(keys, query, count, size, b)
    ensures a == b
  {
    LessTotal(a, b);
  }

  /** What the lookup finds from `count` tokens on: the names of the pages and the total matched length. */
  datatype Match = Match(path: seq<Key>, length: nat)

  ghost function Lookup(keys: set<Key>, prompt: seq<Token>, count: nat, size: nat): Match
    requires size > 0
    decreases |prompt| - count
  {
    if count + 1 >= |prompt| then Match([], count)
    else
      var query := Query(prompt, count, size);
      if exists k :: Best(keys, query, count, size, k) then
        var k :| Best(keys, query, count, size, k);
        if Lcp(k, query) == count + size then
          var rest := Lookup(keys, prompt, count + size, size);
          Match([k] + rest.path, rest.length)
        else Match([k], Lcp(k, query))
      else Match([], count)
  }

  lemma LookupUnfold(keys: set<Key>, prompt: seq<Token>, count: nat, size: nat, k: Key)
    requires size > 0 && count + 1 < |prompt| && Best(keys, Query(prompt, count, size), count, size, k)
    ensures Lookup(keys, prompt, count, size) ==
      var n := Lcp(k, Query(prompt, count, size));
      if n == count + size then
        var rest := Lookup(keys, prompt, count + size, size);
        Match([k] + rest.path, rest.length)
      else Match([k], n)
  {
    var query := Query(prompt, count, size);
    var c :| Best(keys, query, count, size, c) && Lookup(keys, prompt, count, size) ==
      if Lcp(c, query) == count + size then
        var rest := Lookup(keys, prompt, count + size, size);
        Match([c] + rest.path, rest.length)
      else Match([c], Lcp(c, query));
    BestUnique(keys, query, count, size, c, k);
  }

  // ---- Two neighbours suffice ----

  lemma {:induction false} LeastExists(s: set<Key>) returns (m: Key)
    requires s != {}
    ensures m in s && forall x :: x in s && x != m ==> Less(m, x)
  {
    var c :| c in s;
    if s == {c} {
      m := c;
    } else {
      var r := LeastExists(s - {c});
      LessTotal(c, r);
      m := if Less(c, r) then c else r;
      forall x | x in s && x != m ensures Less(m, x) {
        if x != c && m == c && x != r {
          LessTransitive(c, r, x);
        }
      }
    }
  }

  lemma {:induction false} GreatestExists(s: set<Key>) returns (m: Key)
    requires s != {}
    ensures m in s && forall x :: x in s && x != m ==> Less(x, m)
  {
    var c :| c in s;
    if s == {c} {
      m := c;
    } else {
      var r := GreatestExists(s - {c});
      LessTotal(c, r);
      m := if Less(r, c) then c else r;
      forall x | x in s && x != m ensures Less(x, m) {
        if x != c && m == c && x != r {
          LessTransitive(x, r, c);
        }
      }
    }
  }

  /** Of the keys not before the query, the first shares most with it and is nearest. */
  lemma RightNeighbour(query: seq<Token>, m: Key, x: Key)
    requires !Less(m, query) && !Less(x, query) && Less(m, x)
    ensures Lcp(x, query) <= Lcp(m, query) && Nearer(m, x, query)
  {
    LessTotal(m, query);
    MiddleSharesMore(query, m, x);
    LcpSymmetric(query, m);
    LcpSymmetric(query, x);
  }

  lemma LeftNeighbour(query: seq<Token>, m: Key, x: Key)
    requires Less(m, query) && Less(x, query) && Less(x, m)
    ensures Lcp(x, query) <= Lcp(m, query) && Nearer(m, x, query)
  {
    MiddleSharesMore(x, m, query);
  }

  ghost predicate IsLowerBound(s: set<Key>, query: seq<Token>, m: Key) {
    m in s && !Less(m, query) && forall x :: x in s && x != m && !Less(x, query) ==> Less(m, x)
  }

  ghost predicate IsPredecessor(s: set<Key>, query: seq<Token>, m: Key) {
    m in s && Less(m, query) && forall x :: x in s && x != m && Less(x, query) ==> Less(x, m)
  }

  /** `right` is the lower bound of the query in `s` and `left` the key just before it, when they exist. */
  ghost predicate Neighbours(s: set<Key>, query: seq<Token>, left: Option<Key>, right: Option<Key>) {
    && (right.Some? ==> IsLowerBound(s, query, right.value))
    && (left.Some? ==> IsPredecessor(s, query, left.value))
    && (right.None? ==> forall x :: x in s ==> Less(x, query))
    && (left.None? ==> forall x :: x in s ==> !Less(x, query))
  }

  /** The neighbour that shares more than `count` tokens and most; the lower bound wins ties. */
  function Winner(query: seq<Token>, count: nat, left: Option<Key>, right: Option<Key>): Option<Key> {
    var matched := if right.Some? then Lcp(right.value, query) else 0;
    if left.Some? && Lcp(left.value, query) > matched && Lcp(left.value, query) > count then left
    else if matched > count then right
    else None
  }

  lemma RightBeatsAll(s: set<Key>, query: seq<Token>, right: Key, left: Option<Key>)
    requires IsLowerBound(s, query, right)
    requires left.Some? ==> IsPredecessor(s, query, left.value) && Lcp(left.value, query) <= Lcp(right, query)
    requires left.None? ==> forall x :: x in s ==> !Less(x, query)
    ensures forall x :: x in s && x != right ==>
      Lcp(x, query) <= Lcp(right, query) && (Lcp(x, query) == Lcp(right, query) ==> Nearer(right, x, query))
  {
    forall x | x in s && x != right
      ensures Lcp(x, query) <= Lcp(right, query) && (Lcp(x, query) == Lcp(right, query) ==> Nearer(right, x, query))
    {
      if !Less(x, query) {
        RightNeighbour(query, right, x);
      } else {
        if x != left.value {
          LeftNeighbour(query, left.value, x);
        }
      }
    }
  }

  lemma LeftBeatsAll(s: set<Key>, query: seq<Token>, left: Key, right: Option<Key>)
    requires IsPredecessor(s, query, left)
    requires right.Some? ==> IsLowerBound(s, query, right.value) && Lcp(right.value, query) < Lcp(left, query)
    requires right.None? ==> forall x :: x in s ==> Less(x, query)
    ensures forall x :: x in s && x != left ==>
      Lcp(x, query) <= Lcp(left, query) && (Lcp(x, query) == Lcp(left, query) ==> Nearer(left, x, query))
  {
    forall x | x in s && x != left
      ensures Lcp(x, query) <= Lcp(left, query) && (Lcp(x, query) == Lcp(left, query) ==> Nearer(left, x, query))
    {
      if Less(x, query) {
        LeftNeighbour(query, left, x);
      } else {
        if x != right.value {
          RightNeighbour(query, right.value, x);
        }
      }
    }
  }

  /** Looking only at the two neighbours among the one-page extensions equals searching every key. */
  lemma NeighboursSuffice(keys: set<Key>, s: set<Key>, query: seq<Token>, count: nat, size: nat,
                          left: Option<Key>, right: Option<Key>)
    requires s <= keys && Neighbours(s, query, left, right)
    requires forall x :: x in s ==> |x| <= count + size
    requires forall x :: x in keys && Candidate(x, query, count, size) ==> x in s
    ensures Winner(query, count, left, right).Some? ==> Best(keys, query, count, size, Winner(query, count, left, right).value)
    ensures Winner(query, count, left, right).None? ==> forall x :: x in keys ==> !Candidate(x, query, count, size)
  {
    var w := Winner(query, count, left, right);
    if right.Some? && (left.None? || Lcp(left.value, query) <= Lcp(right.value, query)) {
      RightBeatsAll(s, query, right.value, left);
    } else if left.Some? {
      LeftBeatsAll(s, query, left.value, right);
    }
  }

  lemma NeighboursExist(s: set<Key>, query: seq<Token>) returns (left: Option<Key>, right: Option<Key>)
    ensures Neighbours(s, query, left, right)
  {
    var before, after := set x | x in s && Less(x, query), set x | x in s && !Less(x, query);
    left, right := None, None;
    assert forall x :: x in s ==> x in before || x in after;
    if before != {} {
      var m := GreatestExists(before);
      left := Some(m);
    }
    if after != {} {
      var m := LeastExists(after);
      right := Some(m);
    }
  }

  lemma BestExists(keys: set<Key>, query: seq<Token>, count: nat, size: nat, x: Key)
    requires x in keys && Candidate(x, query, count, size)
    ensures exists k :: Best(keys, query, count, size, k)
  {
    var s := set y | y in keys && Candidate(y, query, count, size);
    var left, right := NeighboursExist(s, query);
    NeighboursSuffice(keys, s, query, count, size, left, right);
    assert Best(keys, query, count, size, Winner(query, count, left, right).value);
  }

  // ---- The lookup is a maximum ----

  /** Every page of `k`, from the first on, is cached: a root path of leased pages. */
  ghost predicate Reachable(keys: set<Key>, k: Key, size: nat)
    requires size > 0
  {
    forall j :: 0 <= j < PageCount(|k|, size) ==> PageKey(k, j, size) in keys
  }

  /** The front of `k` that ends on the next page is a candidate as soon as `k` shares a token with the prompt there. */
  lemma FrontOfLongerMatch(k: Key, prompt: seq<Token>, count: nat, size: nat)
    requires size > 0 && count + 1 < |prompt| && Lcp(k, prompt[..|prompt| - 1]) > count
    ensures var page, query := Front(k, count + size), Query(prompt, count, size);
      && Candidate(page, query, count, size)
      && (Lcp(page, query) < count + size ==> Lcp(page, query) == Lcp(k, prompt[..|prompt| - 1]))
  {
    LcpOfFronts(k, prompt[..|prompt| - 1], count + size);
  }

  lemma PageKeyClosed(k: Key, count: nat, j: nat, size: nat)
    requires size > 0 && count == j * size && count < |k|
    ensures j < PageCount(|k|, size)
    ensures PageKey(k, j, size) == Front(k, count + size)
  {
    PageStartsInside(j, |k|, size);
    MulMonotone(j, j, size);
    hide PageCount;
    assert k[..|k|] == k;
  }

  /** No root path of leased pages shares more of the prompt, its last token excepted, than the lookup returns. */
  lemma {:induction false} LookupIsMaximum(keys: set<Key>, prompt: seq<Token>, count: nat, j: nat, size: nat, k: Key)
    requires size > 0 && count == j * size && count < |prompt| && Reachable(keys, k, size)
    ensures Lcp(k, prompt[..|prompt| - 1]) <= Lookup(keys, prompt, count, size).length
    decreases |prompt| - count
  {
    var limit := |prompt| - 1;
    LookupAtLeast(keys, prompt, count, size);
    hide Lookup, Query, Lcp, Best, Reachable;
    if count < limit && Lcp(k, prompt[..limit]) > count {
      var best := BestOnPage(keys, prompt, count, j, size, k);
      LookupUnfold(keys, prompt, count, size, best);
      if Lcp(best, Query(prompt, count, size)) == count + size {
        MulMonotone(j, j, size);
        LookupIsMaximum(keys, prompt, count + size, j + 1, size, k);
      }
    }
  }

  /** A best match on a page falls short of the page only if `k` shares no more. */
  lemma BestOnPage(keys: set<Key>, prompt: seq<Token>, count: nat, j: nat, size: nat, k: Key) returns (best: Key)
    requires size > 0 && count == j * size && count + 1 < |prompt| && Lcp(k, prompt[..|prompt| - 1]) > count
    requires Reachable(keys, k, size)
    ensures Best(keys, Query(prompt, count, size), count, size, best)
    ensures Lcp(best, Query(prompt, count, size)) <= count + size
    ensures Lcp(best, Query(prompt, count, size)) < count + size ==>
      Lcp(k, prompt[..|prompt| - 1]) <= Lcp(best, Query(prompt, count, size))
  {
    var query := Query(prompt, count, size);
    FrontOfLongerMatch(k, prompt, count, size);
    PageKeyClosed(k, count, j, size);
    var page := PageKey(k, j, size);
    hide Lcp, Query, PageCount, PageKey, Front;
    BestExists(keys, query, count, size, page);
    best :| Best(keys, query, count, size, best);
    assert Lcp(page, query) <= Lcp(best, query);
  }

  lemma {:induction false} LookupAtLeast(keys: set<Key>, prompt: seq<Token>, count: nat, size: nat)
    requires size > 0
    ensures count <= Lookup(keys, prompt, count, size).length
    ensures count < |prompt| ==> Lookup(keys, prompt, count, size).length < |prompt|
    decreases |prompt| - count
  {
    if count + 1 < |prompt| {
      var query := Query(prompt, count, size);
      if best :| Best(keys, query, count, size, best) {
        LookupUnfold(keys, prompt, count, size, best);
        if Lcp(best, query) == count + size {
          LookupAtLeast(keys, prompt, count + size, size);
        }
      }
    }
  }

  /** The path names exactly the pages of the matched prefix: page `i` of the match is a front part of entry `path[i]`. */
  ghost predicate PathMatches(keys: set<Key>, prompt: seq<Token>, j: nat, size: nat, m: Match) {
    && m.length <= |prompt|
    && forall i :: 0 <= i < |m.path| ==> PageMatches(keys, prompt, m.length, j + i, size, m.path[i])
  }

  ghost predicate PageMatches(keys: set<Key>, prompt: seq<Token>, length: nat, j: nat, size: nat, k: Key) {
    var e := PageEnd(j, length, size);
    && k in keys
    && j * size < e <= |k| <= j * size + size
    && length <= |prompt| && k[..e] == prompt[..e]
  }

  lemma BestMatchesPage(keys: set<Key>, prompt: seq<Token>, count: nat, j: nat, size: nat, k: Key, length: nat)
    requires size > 0 && count == j * size && count + 1 < |prompt| && length <= |prompt|
    requires Best(keys, Query(prompt, count, size), count, size, k)
    requires var n := Lcp(k, Query(prompt, count, size));
      if n == count + size then n <= length else n == length
    ensures PageMatches(keys, prompt, length, j, size, k)
  {
    var query := Query(prompt, count, size);
    LcpCharacterized(k, query);
    MulMonotone(j, j, size);
    hide Lcp;
    var n := Lcp(k, query);
    assert query[..n] == prompt[..n];
    assert PageEnd(j, length, size) == n;
  }

  lemma ExactPages(j: nat, size: nat)
    requires size > 0
    ensures PageCount(j * size, size) == j
  {
    if j == 0 {
      PageCountBounds(0, size);
    } else {
      MulMonotone(j, j, size);
      PageCountUnique(j * size, size, j);
    }
  }

  lemma PathCons(keys: set<Key>, prompt: seq<Token>, j: nat, size: nat, k: Key, rest: Match)
    requires PathMatches(keys, prompt, j + 1, size, rest) && PageMatches(keys, prompt, rest.length, j, size, k)
    ensures PathMatches(keys, prompt, j, size, Match([k] + rest.path, rest.length))
  {
    hide PageMatches;
    var path := [k] + rest.path;
    forall i | 0 <= i < |path| ensures PageMatches(keys, prompt, rest.length, j + i, size, path[i]) {
      if i > 0 {
        assert PageMatches(keys, prompt, rest.length, j + 1 + (i - 1), size, rest.path[i - 1]);
      }
    }
  }

  lemma {:induction false} LookupPath(keys: set<Key>, prompt: seq<Token>, count: nat, j: nat, size: nat)
    requires size > 0 && count == j * size <= |prompt|
    ensures var m := Lookup(keys, prompt, count, size);
      && PathMatches(keys, prompt, j, size, m)
      && PageCount(m.length, size) == j + |m.path|
    decreases |prompt| - count
  {
    var m := Lookup(keys, prompt, count, size);
    LookupAtLeast(keys, prompt, count, size);
    ExactPages(j, size);
    if count + 1 < |prompt| {
      var query := Query(prompt, count, size);
      if best :| Best(keys, query, count, size, best) {
        LookupUnfold(keys, prompt, count, size, best);
        hide Lookup, Query, PageCount, PathMatches, Lcp;
        if Lcp(best, query) == count + size {
          MulMonotone(j, j, size);
          LookupPath(keys, prompt, count + size, j + 1, size);
          LookupAtLeast(keys, prompt, count + size, size);
          BestMatchesPage(keys, prompt, count, j, size, best, m.length);
          PathCons(keys, prompt, j, size, best, Lookup(keys, prompt, count + size, size));
        } else {
          PartialPage(keys, prompt, count, j, size, best);
        }
      }
    }
  }

  lemma PartialPage(keys: set<Key>, prompt: seq<Token>, count: nat, j: nat, size: nat, best: Key)
    requires size > 0 && count == j * size && count + 1 < |prompt|
    requires Best(keys, Query(prompt, count, size), count, size, best)
    requires Lcp(best, Query(prompt, count, size)) != count + size
    ensures var m := Match([best], Lcp(best, Query(prompt, count, size)));
      PathMatches(keys, prompt, j, size, m) && PageCount(m.length, size) == j + 1
  {
    var n := Lcp(best, Query(prompt, count, size));
    MulMonotone(j, j, size);
    PageCountUnique(n, size, j + 1);
    BestMatchesPage(keys, prompt, count, j, size, best, n);
  }

  /** The matched length is reached: the last page of the path shares exactly that much with the prompt,
      and it is itself the end of a root path of cached pages. */
  lemma LookupReached(keys: set<Key>, prompt: seq<Token>, size: nat)
    requires size > 0 && prompt != []
    ensures var m := Lookup(keys, prompt, 0, size);
      m.length > 0 ==>
        && m.path != []
        && var k := m.path[|m.path| - 1];
        && Reachable(keys, k, size)
        && Lcp(k, prompt[..|prompt| - 1]) >= m.length
  {
    var m := Lookup(keys, prompt, 0, size);
    LookupPath(keys, prompt, 0, 0, size);
    LookupAtLeast(keys, prompt, 0, size);
    PageCountBounds(m.length, size);
    if m.length > 0 {
      hide Lookup;
      var last := |m.path| - 1;
      var k := m.path[last];
      assert PageMatches(keys, prompt, m.length, 0 + last, size, k);
      assert PageEnd(last, m.length, size) == m.length by {
        MulMonotone(last, last, size);
      }
      assert prompt[..|prompt| - 1][..m.length] == prompt[..m.length];
      LcpUnique(k, prompt[..|prompt| - 1], m.length);
      PathEndReachable(keys, prompt, size, m);
    }
  }

  lemma PathEndReachable(keys: set<Key>, prompt: seq<Token>, size: nat, m: Match)
    requires size > 0 && m.path != [] && PathMatches(keys, prompt, 0, size, m)
    requires PageCount(m.length, size) == |m.path|
    ensures Reachable(keys, m.path[|m.path| - 1], size)
  {
    var last := |m.path| - 1;
    var k := m.path[last];
    assert PageMatches(keys, prompt, m.length, 0 + last, size, k);
    MulMonotone(last, last, size);
    PageCountUnique(|k|, size, last + 1);
    hide PageCount, PageKey, PageMatches;
    assert PageEnd(last, m.length, size) == m.length by {
      PageCountBounds(m.length, size);
    }
    hide PageEnd;
    forall i | 0 <= i < PageCount(|k|, size) ensures PageKey(k, i, size) in keys {
      assert PageMatches(keys, prompt, m.length, 0 + i, size, m.path[i]);
      InnerPageKey(keys, prompt, m.length, i, last, size, m.path[i], k);
    }
  }

  lemma InnerPageKey(keys: set<Key>, prompt: seq<Token>, length: nat, i: nat, last: nat, size: nat, p: Key, k: Key)
    requires size > 0 && i <= last && PageEnd(last, length, size) == length && (i == last ==> p == k)
    requires PageMatches(keys, prompt, length, i, size, p) && PageMatches(keys, prompt, length, last, size, k)
    ensures PageKey(k, i, size) in keys
  {
    MulMonotone(i, i, size);
    MulMonotone(last, last, size);
    if i < last {
      MulMonotone(i + 1, last, size);
      var e := i * size + size;
      assert PageEnd(i, length, size) == e && PageEnd(i, |k|, size) == e;
      assert k[..e] == k[..length][..e] == prompt[..length][..e] == prompt[..e];
      assert p == p[..e];
    } else {
      assert PageEnd(i, |k|, size) == |k|;
      assert PageKey(k, i, size) == k;
    }
  }
}
