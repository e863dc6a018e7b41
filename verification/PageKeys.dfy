/** Page arithmetic. A cached page is named by the whole token history up to the end of its
    valid slots, so page `j` of a sequence and a cache entry are named in the same way. */
module PageKeys {
  import opened Arithmetic

  type Token = int
  type Key = seq<Token>

  function PageCount(n: nat, size: nat): nat
    requires size > 0
  {
    n / size + (if n % size != 0 then 1 else 0)
  }

  /** First token position of the page that holds position `n - 1`. */
  function PageStart(n: nat, size: nat): nat
    requires size > 0 && n > 0
  {
    (n - 1) / size * size
  }

  function PageEnd(j: nat, n: nat, size: nat): (e: nat)
    ensures e <= n
  {
    if (j + 1) * size <= n then (j + 1) * size else n
  }

  /** The name of page `j` of a sequence with history `tokens`. */
  function PageKey(tokens: seq<Token>, j: nat, size: nat): Key {
    tokens[..PageEnd(j, |tokens|, size)]
  }

  /** `PageCount` is the least number of pages covering `n` tokens. */
  lemma PageCountBounds(n: nat, size: nat)
    requires size > 0
    ensures PageCount(0, size) == 0
    ensures n <= PageCount(n, size) * size
    ensures n > 0 ==> PageCount(n, size) > 0 && (PageCount(n, size) - 1) * size < n
  {
    DivisionBounds(n, size);
    DivisionBounds(0, size);
    var q := n / size;
    MulMonotone(q, q, size);
  }

  lemma PageCountUnique(n: nat, size: nat, c: nat)
    requires size > 0 && c > 0 && (c - 1) * size < n <= c * size
    ensures PageCount(n, size) == c
  {
    PageCountBounds(n, size);
    hide PageCount;
    var d := PageCount(n, size);
    MulMonotone(d, c - 1, size);
    MulMonotone(c, d - 1, size);
  }

  lemma PageCountMonotone(m: nat, n: nat, size: nat)
    requires size > 0 && m <= n
    ensures PageCount(m, size) <= PageCount(n, size)
  {
    PageCountBounds(m, size);
    PageCountBounds(n, size);
    hide PageCount;
    MulMonotone(PageCount(n, size), PageCount(m, size) - 1, size);
  }

  /** A page index below the page count starts before the end of the history. */
  lemma PageStartsInside(j: nat, n: nat, size: nat)
    requires size > 0
    ensures j < PageCount(n, size) <==> j * size < n
  {
    PageCountBounds(n, size);
    hide PageCount;
    var c: int := PageCount(n, size);
    MulMonotone(j, c - 1, size);
    MulMonotone(c, j, size);
  }

  lemma PageEndBounds(j: nat, n: nat, size: nat)
    requires size > 0 && j < PageCount(n, size)
    ensures j * size < PageEnd(j, n, size) <= n
    ensures PageEnd(j, n, size) <= j * size + size
    ensures PageStart(PageEnd(j, n, size), size) == j * size
    ensures PageCount(PageEnd(j, n, size), size) == j + 1
  {
    PageStartsInside(j, n, size);
    MulMonotone(j, j, size);
    hide PageCount;
    var e := PageEnd(j, n, size);
    QuotientUnique(e - 1, size, j);
    PageCountUnique(e, size, j + 1);
  }

  lemma PageStartBounds(n: nat, size: nat)
    requires size > 0 && n > 0
    ensures PageStart(n, size) < n <= PageStart(n, size) + size
    ensures PageCount(n, size) > 0 && PageStart(n, size) == (PageCount(n, size) - 1) * size
  {
    DivisionBounds(n - 1, size);
    hide PageCount;
    var q := (n - 1) / size;
    MulMonotone(q, q, size);
    PageCountUnique(n, size, q + 1);
  }

  /** Position `i` lies in page `i / size`. */
  lemma PositionPage(i: nat, n: nat, size: nat)
    requires size > 0 && i < n
    ensures i / size < PageCount(n, size)
    ensures i / size * size <= i < PageEnd(i / size, n, size)
    ensures i - i / size * size == i % size < size
  {
    DivisionBounds(i, size);
    PageStartsInside(i / size, n, size);
    hide PageCount;
    MulMonotone(i / size, i / size, size);
  }

  lemma PageKeyBounds(tokens: seq<Token>, j: nat, size: nat)
    requires size > 0 && j < PageCount(|tokens|, size)
    ensures j * size < |PageKey(tokens, j, size)| == PageEnd(j, |tokens|, size) <= |tokens|
    ensures PageStart(|PageKey(tokens, j, size)|, size) == j * size
  {
    PageEndBounds(j, |tokens|, size);
    hide PageCount, PageStart, PageEnd;
  }

  /** Different pages of one history have different names. */
  lemma PageKeysDiffer(tokens: seq<Token>, i: nat, j: nat, size: nat)
    requires size > 0 && i < j < PageCount(|tokens|, size)
    ensures |PageKey(tokens, i, size)| < |PageKey(tokens, j, size)|
  {
    PageEndBounds(i, |tokens|, size);
    PageEndBounds(j, |tokens|, size);
    PageKeyBounds(tokens, i, size);
    PageKeyBounds(tokens, j, size);
    hide PageCount, PageStart, PageEnd, PageKey;
    MulMonotone(i + 1, j, size);
    MulMonotone(i, j, size);
  }
}
