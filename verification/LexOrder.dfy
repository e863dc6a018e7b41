/** Lexicographic order on token sequences and longest common prefixes. */
module LexOrder {

  /** std::lexicographical_compare: strictly before, a proper prefix coming first. */
  predicate Less(a: seq<int>, b: seq<int>)
    decreases |a|
  {
    if b == [] then false
    else if a == [] then true
    else if a[0] != b[0] then a[0] < b[0]
    else Less(a[1..], b[1..])
  }

  /** Length of the longest common prefix. */
  function Lcp(a: seq<int>, b: seq<int>): (n: nat)
    ensures n <= |a| && n <= |b|
    decreases |a|
  {
    if a == [] || b == [] || a[0] != b[0] then 0 else 1 + Lcp(a[1..], b[1..])
  }

  /** The two sequences agree below `Lcp` and differ, or one ends, at `Lcp`. */
  lemma {:induction false} LcpCharacterized(a: seq<int>, b: seq<int>)
    ensures a[..Lcp(a, b)] == b[..Lcp(a, b)]
    ensures Lcp(a, b) < |a| && Lcp(a, b) < |b| ==> a[Lcp(a, b)] != b[Lcp(a, b)]
    decreases |a|
  {
    if a != [] && b != [] && a[0] == b[0] {
      LcpCharacterized(a[1..], b[1..]);
      var n := Lcp(a[1..], b[1..]);
      assert a[..n + 1] == [a[0]] + a[1..][..n];
      assert b[..n + 1] == [b[0]] + b[1..][..n];
    }
  }

  lemma {:induction false} LcpUnique(a: seq<int>, b: seq<int>, n: nat)
    requires n <= |a| && n <= |b| && a[..n] == b[..n]
    ensures n <= Lcp(a, b)
    ensures (n == |a| || n == |b| || a[n] != b[n]) ==> Lcp(a, b) == n
    decreases n
  {
    if n > 0 {
      assert a[..n][0] == a[0] && b[..n][0] == b[0];
      assert a[1..][..n - 1] == a[..n][1..] == b[..n][1..] == b[1..][..n - 1];
      LcpUnique(a[1..], b[1..], n - 1);
    }
  }

  /** The order decided at the first difference. */
  lemma {:induction false} LessCharacterized(a: seq<int>, b: seq<int>)
    ensures Less(a, b) <==> Lcp(a, b) < |b| && (Lcp(a, b) == |a| || a[Lcp(a, b)] < b[Lcp(a, b)])
    decreases |a|
  {
    if a != [] && b != [] && a[0] == b[0] {
      LessCharacterized(a[1..], b[1..]);
    }
  }

  lemma LcpSymmetric(a: seq<int>, b: seq<int>)
    ensures Lcp(a, b) == Lcp(b, a)
  {
    LcpCharacterized(a, b);
    LcpUnique(b, a, Lcp(a, b));
  }

  lemma LessTotal(a: seq<int>, b: seq<int>)
    ensures Less(a, b) || a == b || Less(b, a)
    ensures !(Less(a, b) && Less(b, a))
    ensures !Less(a, a)
  {
    LcpCharacterized(a, b);
    LcpSymmetric(a, b);
    LcpUnique(a, a, |a|);
    LessCharacterized(a, b);
    LessCharacterized(b, a);
    LessCharacterized(a, a);
  }

  lemma {:induction false} LessTransitive(a: seq<int>, b: seq<int>, c: seq<int>)
    requires Less(a, b) && Less(b, c)
    ensures Less(a, c)
    decreases |a|
  {
    if a != [] && a[0] == b[0] && b[0] == c[0] {
      LessTransitive(a[1..], b[1..], c[1..]);
    }
  }

  /** Between two sequences in order, nothing shares less with the middle one. */
  lemma {:induction false} MiddleSharesMore(a: seq<int>, b: seq<int>, c: seq<int>)
    requires a == b || Less(a, b)
    requires b == c || Less(b, c)
    ensures Lcp(a, c) <= Lcp(a, b) && Lcp(a, c) <= Lcp(b, c)
    decreases |a|
  {
    if a != [] && c != [] && a[0] == c[0] {
      assert b != [] && b[0] == a[0];
      MiddleSharesMore(a[1..], b[1..], c[1..]);
    }
  }

  /** A common front does not take part in the comparison. */
  lemma {:induction false} LessCommonFront(p: seq<int>, a: seq<int>, b: seq<int>)
    ensures Less(p + a, p + b) <==> Less(a, b)
    ensures Lcp(p + a, p + b) == |p| + Lcp(a, b)
    decreases |p|
  {
    if p == [] {
      assert p + a == a && p + b == b;
    } else {
      assert (p + a)[1..] == p[1..] + a;
      assert (p + b)[1..] == p[1..] + b;
      LessCommonFront(p[1..], a, b);
    }
  }

  /** At most the first `n` elements. */
  function Front(s: seq<int>, n: nat): (r: seq<int>)
    ensures |r| <= n && |r| <= |s|
  {
    if n <= |s| then s[..n] else s
  }

  lemma {:induction false} LcpOfFronts(a: seq<int>, b: seq<int>, n: nat)
    ensures Lcp(Front(a, n), Front(b, n)) == if Lcp(a, b) <= n then Lcp(a, b) else n
    decreases n
  {
    if n > 0 && a != [] && b != [] {
      assert Front(a, n)[1..] == Front(a[1..], n - 1);
      assert Front(b, n)[1..] == Front(b[1..], n - 1);
      LcpOfFronts(a[1..], b[1..], n - 1);
    }
  }
}
