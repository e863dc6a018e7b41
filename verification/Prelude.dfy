/** Small shared vocabulary: optional values, duplicate-free sequences and
    the bag of everything held by the entries of a map. */
module Prelude {

  datatype Option<+T> = None | Some(value: T)

  ghost predicate NoDuplicates<T>(s: seq<T>) {
    forall i, j :: 0 <= i < j < |s| ==> s[i] != s[j]
  }

  ghost function Elements<T>(s: seq<T>): set<T> {
    set x | x in s
  }

  lemma {:induction false} ElementsCardinality<T>(s: seq<T>)
    requires NoDuplicates(s)
    ensures |Elements(s)| == |s|
  {
    if s != [] {
      var n := |s| - 1;
      ElementsCardinality(s[..n]);
      assert s == s[..n] + [s[n]];
      assert Elements(s) == Elements(s[..n]) + {s[n]};
    }
  }

  ghost function Identity(n: nat): seq<nat> {
    seq(n, i requires 0 <= i < n => i)
  }

  /** A duplicate-free sequence of numbers below `n` has at most `n` of them, and `n` only if it has them all. */
  lemma FewDistinct(w: seq<nat>, n: nat)
    requires NoDuplicates(w) && forall i :: 0 <= i < |w| ==> w[i] < n
    ensures |w| <= n
    ensures |w| == n <==> forall x :: 0 <= x < n ==> x in w
  {
    ElementsCardinality(w);
    var all := Elements(Identity(n));
    ElementsCardinality(Identity(n));
    forall x | 0 <= x < n ensures x in all {
      assert Identity(n)[x] == x;
    }
    assert Elements(w) <= all;
    var rest := all - Elements(w);
    assert all == Elements(w) + rest;
    forall x | 0 <= x < n ensures x in w <==> x !in rest {
    }
    assert rest == {} <==> |w| == n;
    assert (forall x :: 0 <= x < n ==> x in w) ==> rest == {};
  }

  lemma MultisetCons<T>(x: T, s: seq<T>)
    ensures multiset([x] + s) == multiset{x} + multiset(s)
  {
  }

  lemma Cancel<T>(a: multiset<T>, b: multiset<T>, c: multiset<T>)
    requires a + c == b + c
    ensures a == b
  {
    assert a == (a + c) - c;
    assert b == (b + c) - c;
  }

  lemma AddCons<T>(h: multiset<T>, x: T, s: seq<T>)
    ensures h + multiset([x] + s) == h + multiset{x} + multiset(s)
  {
    MultisetCons(x, s);
  }

  lemma MultisetSnoc<T>(s: seq<T>)
    requires s != []
    ensures multiset(s) == multiset(s[..|s| - 1]) + multiset{s[|s| - 1]}
  {
    assert s == s[..|s| - 1] + [s[|s| - 1]];
  }

  /** The multiset of all elements of all sequences stored in `m`. */
  ghost function Bag<K>(m: map<K, seq<nat>>): multiset<nat> {
    if m.Keys == {} then multiset{}
    else
      var k :| k in m;
      multiset(m[k]) + Bag(m - {k})
  }

  lemma {:induction false} BagRemove<K>(m: map<K, seq<nat>>, k: K)
    requires k in m
    ensures Bag(m) == multiset(m[k]) + Bag(m - {k})
    decreases |m.Keys|
  {
    var c :| c in m && Bag(m) == multiset(m[c]) + Bag(m - {c});
    if c != k {
      BagRemove(m - {c}, k);
      assert (m - {k}) - {c} == (m - {c}) - {k};
      BagRemove(m - {k}, c);
    }
  }

  lemma BagUpdate<K>(m: map<K, seq<nat>>, k: K, v: seq<nat>)
    ensures k in m ==> Bag(m[k := v]) + multiset(m[k]) == Bag(m) + multiset(v)
    ensures k !in m ==> Bag(m[k := v]) == Bag(m) + multiset(v)
  {
    BagRemove(m[k := v], k);
    if k in m {
      BagRemove(m, k);
      assert m[k := v] - {k} == m - {k};
    } else {
      assert m[k := v] - {k} == m;
    }
  }

  /** Two different holders of the same element are both counted. */
  lemma BagTwoHolders<K>(m: map<K, seq<nat>>, a: K, b: K, x: nat)
    requires a in m && b in m && a != b
    ensures Bag(m)[x] >= multiset(m[a])[x] + multiset(m[b])[x]
  {
    BagRemove(m, a);
    BagRemove(m - {a}, b);
  }

  lemma {:induction false} BagMember<K>(m: map<K, seq<nat>>, x: nat) returns (k: K)
    requires x in Bag(m)
    ensures k in m && x in m[k]
    decreases |m.Keys|
  {
    var c :| c in m && Bag(m) == multiset(m[c]) + Bag(m - {c});
    if x in m[c] {
      k := c;
    } else {
      k := BagMember(m - {c}, x);
    }
  }

  /** The sum of all values of `m`. */
  ghost function Total<K>(m: map<K, nat>): nat {
    if m.Keys == {} then 0
    else
      var k :| k in m;
      m[k] + Total(m - {k})
  }

  lemma {:induction false} TotalRemove<K>(m: map<K, nat>, k: K)
    requires k in m
    ensures Total(m) == m[k] + Total(m - {k})
    decreases |m.Keys|
  {
    var c :| c in m && Total(m) == m[c] + Total(m - {c});
    if c != k {
      TotalRemove(m - {c}, k);
      assert (m - {k}) - {c} == (m - {c}) - {k};
      TotalRemove(m - {k}, c);
    }
  }

  lemma TotalUpdate<K>(m: map<K, nat>, k: K, v: nat)
    ensures k in m ==> Total(m[k := v]) + m[k] == Total(m) + v
    ensures k !in m ==> Total(m[k := v]) == Total(m) + v
  {
    TotalRemove(m[k := v], k);
    if k in m {
      TotalRemove(m, k);
      assert m[k := v] - {k} == m - {k};
    } else {
      assert m[k := v] - {k} == m;
    }
  }

  lemma {:induction false} TotalMonotone<K>(a: map<K, nat>, b: map<K, nat>)
    requires forall k :: k in a ==> k in b && a[k] <= b[k]
    ensures Total(a) <= Total(b)
    decreases |a.Keys|
  {
    if a.Keys != {} {
      var k :| k in a;
      TotalRemove(a, k);
      TotalRemove(b, k);
      TotalMonotone(a - {k}, b - {k});
    }
  }

  /** Replacing one value by a bound still leaves the total below the bounds. */
  lemma TotalSlack<K>(a: map<K, nat>, b: map<K, nat>, k: K)
    requires k in a && forall x :: x in a ==> x in b && a[x] <= b[x]
    ensures Total(a) + (b[k] - a[k]) <= Total(b)
  {
    TotalUpdate(a, k, b[k]);
    TotalMonotone(a[k := b[k]], b);
  }

  ghost function Lengths<K>(m: map<K, seq<nat>>): map<K, nat> {
    map k | k in m :: |m[k]|
  }

  lemma {:induction false} BagSize<K>(m: map<K, seq<nat>>)
    ensures |Bag(m)| == Total(Lengths(m))
    decreases |m.Keys|
  {
    if m.Keys != {} {
      var k :| k in m;
      BagRemove(m, k);
      BagSize(m - {k});
      TotalRemove(Lengths(m), k);
      assert Lengths(m) - {k} == Lengths(m - {k});
    }
  }

  lemma MultiplicityAtTwoIndices(s: seq<nat>, i: nat, j: nat)
    requires i < j < |s| && s[i] == s[j]
    ensures multiset(s)[s[i]] >= 2
  {
    assert s == s[..j] + [s[j]] + s[j + 1..];
    assert s[i] in s[..j];
  }

  ghost function Support(h: multiset<nat>): set<nat> {
    set x | x in h
  }

  /** Distinct elements never outnumber occurrences, and a repeated element makes the bound strict. */
  lemma {:induction false} DistinctAtMostOccurrences(h: multiset<nat>)
    ensures |Support(h)| <= |h|
    ensures forall x :: h[x] >= 2 ==> |Support(h)| < |h|
    decreases |h|
  {
    if h != multiset{} {
      var x :| x in h;
      var rest := h - multiset{x};
      assert h == rest + multiset{x};
      assert |h| == |rest| + 1;
      DistinctAtMostOccurrences(rest);
      assert Support(h) == Support(rest) + {x};
      if h[x] >= 2 {
        assert x in rest;
        assert Support(h) == Support(rest);
      } else {
        assert x !in Support(rest);
        assert |Support(h)| == |Support(rest)| + 1;
        forall y | h[y] >= 2 ensures |Support(h)| < |h| {
          assert rest[y] >= 2;
        }
      }
    }
  }

  lemma SupportMonotone(a: multiset<nat>, b: multiset<nat>)
    requires a <= b
    ensures |Support(a)| <= |Support(b)|
  {
    assert Support(a) <= Support(b);
    SubsetCardinality(Support(a), Support(b));
  }

  lemma SubsetCardinality(a: set<nat>, b: set<nat>)
    requires a <= b
    ensures |a| <= |b|
  {
    assert b == a + (b - a);
  }
}
