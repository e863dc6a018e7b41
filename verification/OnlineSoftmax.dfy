/** Attention over a paged KV cache (examples/serving_scheduler/native/paged_kv_cache.h): one pass over the block table
    with a running maximum, compared with gathering everything and applying softmax. Numbers are exact. */
module OnlineSoftmax {
  import opened Prelude
  import opened Arithmetic
  import L = KvLayout

  /** The exponential of `x`. */
  function Weight(exp: real -> real, x: real): real {
    exp(x)
  }

  /** Any positive function that turns sums into products. */
  ghost predicate IsExp(exp: real -> real) {
    (forall x: real :: Weight(exp, x) > 0.0) && forall a: real, b: real :: Weight(exp, a + b) == Weight(exp, a) * Weight(exp, b)
  }

  function Larger(a: real, b: real): real {
    if a < b then b else a
  }

  /** The largest of the first `n` scores. */
  function MaxTo(s: seq<real>, n: nat): real
    requires 0 < n <= |s|
  {
    if n == 1 then s[0] else Larger(MaxTo(s, n - 1), s[n - 1])
  }

  /** Sum of the weights of the first `n` scores, relative to `m`. */
  function Denominator(exp: real -> real, s: seq<real>, m: real, n: nat): real
    requires n <= |s|
  {
    if n == 0 then 0.0 else Denominator(exp, s, m, n - 1) + Weight(exp, s[n - 1] - m)
  }

  /** Weighted sum of one channel over the first `n` tokens. */
  function Numerator(exp: real -> real, s: seq<real>, v: seq<real>, m: real, n: nat): real
    requires n <= |s| && n <= |v|
  {
    if n == 0 then 0.0 else Numerator(exp, s, v, m, n - 1) + Weight(exp, s[n - 1] - m) * v[n - 1]
  }

  /** Softmax of one score: its share of the weights relative to the largest score. */
  function Softmax(exp: real -> real, s: seq<real>, t: nat): real
    requires t < |s|
  {
    var m := MaxTo(s, |s|);
    if Denominator(exp, s, m, |s|) == 0.0 then 0.0 else Weight(exp, s[t] - m) / Denominator(exp, s, m, |s|)
  }

  /** One channel of softmax(scores) times values, over the first `n` tokens. */
  function Gathered(exp: real -> real, s: seq<real>, v: seq<real>, n: nat): real
    requires n <= |s| && n <= |v|
  {
    if n == 0 then 0.0 else Gathered(exp, s, v, n - 1) + Softmax(exp, s, n - 1) * v[n - 1]
  }

  // ---- Algebra of the running sums ----

  lemma Shift(exp: real -> real, x: real, m: real, next: real)
    requires IsExp(exp)
    ensures Weight(exp, x - next) == Weight(exp, x - m) * Weight(exp, m - next)
  {
    assert x - next == (x - m) + (m - next);
  }

  lemma {:induction false} DenominatorShift(exp: real -> real, s: seq<real>, m: real, next: real, n: nat)
    requires IsExp(exp) && n <= |s|
    ensures Denominator(exp, s, next, n) == Denominator(exp, s, m, n) * Weight(exp, m - next)
  {
    hide IsExp;
    if n > 0 {
      DenominatorShift(exp, s, m, next, n - 1);
      Shift(exp, s[n - 1], m, next);
      ScaledSum(Denominator(exp, s, m, n - 1), Weight(exp, s[n - 1] - m), Weight(exp, m - next), Denominator(exp, s, next, n - 1), Weight(exp, s[n - 1] - next));
    }
  }

  lemma {:induction false} NumeratorShift(exp: real -> real, s: seq<real>, v: seq<real>, m: real, next: real, n: nat)
    requires IsExp(exp) && n <= |s| && n <= |v|
    ensures Numerator(exp, s, v, next, n) == Numerator(exp, s, v, m, n) * Weight(exp, m - next)
  {
    hide IsExp;
    if n > 0 {
      NumeratorShift(exp, s, v, m, next, n - 1);
      Shift(exp, s[n - 1], m, next);
      ScaledProduct(Weight(exp, s[n - 1] - m), v[n - 1], Weight(exp, m - next), Weight(exp, s[n - 1] - next));
      ScaledSum(Numerator(exp, s, v, m, n - 1), Weight(exp, s[n - 1] - m) * v[n - 1], Weight(exp, m - next),
                Numerator(exp, s, v, next, n - 1), Weight(exp, s[n - 1] - next) * v[n - 1]);
    }
  }

  lemma ScaledSum(a: real, b: real, c: real, a': real, b': real)
    requires a' == a * c && b' == b * c
    ensures a' + b' == (a + b) * c
  {
    DistributeReal(a, b, c);
  }

  lemma ScaledProduct(e: real, v: real, c: real, e': real)
    requires e' == e * c
    ensures e' * v == (e * v) * c
  {
    SwapReal(e, v, c);
  }

  lemma DistributeReal(a: real, b: real, c: real)
    ensures (a + b) * c == a * c + b * c
  {
  }

  lemma SwapReal(a: real, b: real, c: real)
    ensures (a * b) * c == (a * c) * b
  {
  }

  lemma {:induction false} DenominatorPositive(exp: real -> real, s: seq<real>, m: real, n: nat)
    requires IsExp(exp) && 0 < n <= |s|
    ensures Denominator(exp, s, m, n) > 0.0
  {
    if n > 1 {
      DenominatorPositive(exp, s, m, n - 1);
    }
    assert Weight(exp, s[n - 1] - m) > 0.0;
  }

  /** Dividing at the end is dividing every weight. */
  lemma {:induction false} GatheredIsQuotient(exp: real -> real, s: seq<real>, v: seq<real>, n: nat)
    requires IsExp(exp) && 0 < |s| && n <= |s| && n <= |v|
    ensures var m := MaxTo(s, |s|);
      Denominator(exp, s, m, |s|) > 0.0 && Gathered(exp, s, v, n) == Numerator(exp, s, v, m, n) / Denominator(exp, s, m, |s|)
  {
    hide IsExp, MaxTo, Denominator;
    var m := MaxTo(s, |s|);
    DenominatorPositive(exp, s, m, |s|);
    var d := Denominator(exp, s, m, |s|);
    if n > 0 {
      GatheredIsQuotient(exp, s, v, n - 1);
      SumOfQuotients(Numerator(exp, s, v, m, n - 1), Weight(exp, s[n - 1] - m), v[n - 1], d, Gathered(exp, s, v, n - 1), Softmax(exp, s, n - 1));
    } else {
      ZeroQuotient(d);
    }
  }

  lemma ZeroQuotient(d: real)
    requires d > 0.0
    ensures 0.0 / d == 0.0
  {
  }

  lemma SumOfQuotients(a: real, e: real, v: real, d: real, g: real, w: real)
    requires d > 0.0 && g == a / d && w == e / d
    ensures g + w * v == (a + e * v) / d
  {
    AddQuotients(a, e, v, d);
  }

  lemma AddQuotients(a: real, e: real, v: real, d: real)
    requires d > 0.0
    ensures a / d + e / d * v == (a + e * v) / d
  {
    var q := 1.0 / d;
    assert a / d == a * q && e / d == e * q && (a + e * v) / d == (a + e * v) * q;
    SwapReal(e, q, v);
    DistributeReal(a, e * v, q);
    SwapReal(e, v, q);
  }

  // ---- The paged data ----

  /** One K and one V pool, and the block table of one sequence. */
  datatype Paged = Paged(g: L.Grid, keys: seq<real>, values: seq<real>, table: seq<nat>)

  ghost predicate PagedOk(p: Paged) {
    && p.g.layers == 1 && p.g.slots > 0 && |p.keys| == |p.values| == L.Elements(p.g)
    && forall i :: 0 <= i < |p.table| ==> p.table[i] < p.g.blocks
  }

  /** The row of token `t`, wherever its page is. */
  function RowAt(p: Paged, data: seq<real>, t: nat): (r: seq<real>)
    requires PagedOk(p) && |data| == L.Elements(p.g) && t / p.g.slots < |p.table|
    ensures |r| == p.g.width
  {
    L.LayerOf(data, p.g, p.table[t / p.g.slots], 0, t % p.g.slots)
  }

  function DotTo(a: seq<real>, b: seq<real>, n: nat): real
    requires n <= |a| && n <= |b|
  {
    if n == 0 then 0.0 else DotTo(a, b, n - 1) + a[n - 1] * b[n - 1]
  }

  lemma InTable(p: Paged, length: nat, t: nat)
    requires PagedOk(p) && length <= |p.table| * p.g.slots && t < length
    ensures t / p.g.slots < |p.table|
  {
    DivisionBounds(t, p.g.slots);
    MulMonotone(|p.table|, t / p.g.slots, p.g.slots);
  }

  ghost predicate Fits(p: Paged, length: nat) {
    PagedOk(p) && length <= |p.table| * p.g.slots
  }

  /** Scaled query-key products of the first `length` tokens. */
  function Scores(p: Paged, query: seq<real>, root: real, length: nat): (r: seq<real>)
    requires Fits(p, length) && |query| == p.g.width && root > 0.0
    ensures |r| == length
  {
    seq(length, t requires 0 <= t < length => ScoreAt(p, query, root, length, t))
  }

  function ScoreAt(p: Paged, query: seq<real>, root: real, length: nat, t: nat): real
    requires Fits(p, length) && |query| == p.g.width && root > 0.0 && t < length
  {
    InTable(p, length, t);
    DotTo(query, RowAt(p, p.keys, t), p.g.width) / root
  }

  /** One channel of the values of the first `length` tokens. */
  function Channel(p: Paged, length: nat, d: nat): (r: seq<real>)
    requires Fits(p, length) && d < p.g.width
    ensures |r| == length
  {
    seq(length, t requires 0 <= t < length => ValueAt(p, length, d, t))
  }

  function ValueAt(p: Paged, length: nat, d: nat, t: nat): real
    requires Fits(p, length) && d < p.g.width && t < length
  {
    InTable(p, length, t);
    RowAt(p, p.values, t)[d]
  }

  /** Gather, scale, softmax, and multiply by the values. */
  function GatherAttention(exp: real -> real, p: Paged, query: seq<real>, root: real, length: nat): (r: seq<real>)
    requires Fits(p, length) && |query| == p.g.width && root > 0.0
    ensures |r| == p.g.width
  {
    seq(p.g.width, d requires 0 <= d < p.g.width => Gathered(exp, Scores(p, query, root, length), Channel(p, length, d), length))
  }

  /** Where the code finds an element of token `base + token`, with `base` the start of page `k` of the table. */
  lemma PagedElement(p: Paged, data: seq<real>, length: nat, k: nat, base: nat, token: nat, d: nat)
    requires Fits(p, length) && |data| == L.Elements(p.g) && base == k * p.g.slots && token < p.g.slots && base + token < length && d < p.g.width
    ensures k < |p.table| && (base + token) / p.g.slots == k
    ensures var offset := p.table[k] * (p.g.slots * p.g.width) + token * p.g.width + d;
      offset < |data| && data[offset] == RowAt(p, data, base + token)[d]
  {
    QuotientUnique(base + token, p.g.slots, k);
    DivisionBounds(base + token, p.g.slots);
    InTable(p, length, base + token);
    var b := p.table[k];
    L.OffsetInBounds(p.g, b, 0, token);
    L.SlotOffset(p.g, b, 0, token);
    hide L.Offset, L.Elements;
    OneLayer(b, p.g.slots * p.g.width);
  }

  lemma OneLayer(b: nat, pitch: nat)
    ensures b * 1 * pitch + 0 * pitch == b * pitch
  {
  }

  // ---- One pass ----

  /** Scores of the tokens of one page, and the largest of them. */
  method PageScores(p: Paged, query: seq<real>, root: real, length: nat, k: nat, base: nat, count: nat) returns (scores: seq<real>, largest: real)
    requires Fits(p, length) && |query| == p.g.width && root > 0.0
    requires base == k * p.g.slots && 0 < count <= p.g.slots && base + count <= length
    ensures |scores| == count && forall i :: 0 <= i < count ==> scores[i] == Scores(p, query, root, length)[base + i]
    ensures largest == MaxTo(scores, count)
  {
    hide Fits, DotTo, RowAt;
    scores, largest := [], 0.0;
    for token := 0 to count
      invariant |scores| == token && forall i :: 0 <= i < token ==> scores[i] == Scores(p, query, root, length)[base + i]
      invariant token > 0 ==> largest == MaxTo(scores, token)
    {
      var score := TokenScore(p, query, root, length, k, base, token);
      MaxSnoc(scores, score);
      scores := scores + [score];
      largest := if token == 0 then score else Larger(largest, score);
    }
  }

  /** One element of one token's row, at its physical offset. */
  method TokenElement(p: Paged, data: seq<real>, length: nat, k: nat, base: nat, token: nat, d: nat) returns (x: real)
    requires Fits(p, length) && |data| == L.Elements(p.g) && base == k * p.g.slots && token < p.g.slots && base + token < length && d < p.g.width
    ensures (base + token) / p.g.slots < |p.table| && x == RowAt(p, data, base + token)[d]
  {
    hide Fits, PagedOk, L.Elements, RowAt;
    TokenPlace(p, length, k, base, token);
    PagedElement(p, data, length, k, base, token, d);
    x := data[p.table[k] * (p.g.slots * p.g.width) + token * p.g.width + d];
  }

  /** The score of one token of a page. */
  method TokenScore(p: Paged, query: seq<real>, root: real, length: nat, k: nat, base: nat, token: nat) returns (score: real)
    requires Fits(p, length) && |query| == p.g.width && root > 0.0
    requires base == k * p.g.slots && token < p.g.slots && base + token < length
    ensures score == ScoreAt(p, query, root, length, base + token)
  {
    hide Fits, PagedOk, L.Elements, RowAt;
    TokenPlace(p, length, k, base, token);
    score := 0.0;
    for d := 0 to p.g.width
      invariant score == DotTo(query, RowAt(p, p.keys, base + token), d)
    {
      var x := TokenElement(p, p.keys, length, k, base, token, d);
      score := score + query[d] * x;
    }
    score := score / root;
  }

  lemma TokenPlace(p: Paged, length: nat, k: nat, base: nat, token: nat)
    requires Fits(p, length) && base == k * p.g.slots && token < p.g.slots && base + token < length
    ensures PagedOk(p) && p.g.slots > 0 && k < |p.table| && (base + token) / p.g.slots == k && |p.keys| == |p.values| == L.Elements(p.g)
  {
    QuotientUnique(base + token, p.g.slots, k);
    InTable(p, length, base + token);
  }

  lemma {:induction false} MaxSnoc(s: seq<real>, x: real)
    ensures MaxTo(s + [x], |s| + 1) == if s == [] then x else Larger(MaxTo(s, |s|), x)
  {
    if s != [] {
      MaxFront(s, s + [x], |s|);
    }
  }

  lemma {:induction false} MaxFront(s: seq<real>, t: seq<real>, n: nat)
    requires 0 < n <= |s| && n <= |t| && s[..n] == t[..n]
    ensures MaxTo(s, n) == MaxTo(t, n)
  {
    assert s[n - 1] == s[..n][n - 1] == t[..n][n - 1] == t[n - 1];
    if n > 1 {
      assert s[..n - 1] == s[..n][..n - 1] == t[..n][..n - 1] == t[..n - 1];
      MaxFront(s, t, n - 1);
    }
  }

  /** The largest of everything so far and one more page. */
  lemma {:induction false} MaxJoin(s: seq<real>, base: nat, scores: seq<real>, count: nat)
    requires 0 < count <= |scores| && base + count <= |s| && forall i :: 0 <= i < count ==> scores[i] == s[base + i]
    ensures MaxTo(s, base + count) == if base == 0 then MaxTo(scores, count) else Larger(MaxTo(s, base), MaxTo(scores, count))
    decreases count
  {
    if count > 1 {
      MaxJoin(s, base, scores, count - 1);
    }
  }

  /** The running state after `n` tokens: relative to the largest score so far. */
  ghost predicate Running(exp: real -> real, p: Paged, s: seq<real>, length: nat, n: nat, m: real, denominator: real, numerator: seq<real>)
    requires Fits(p, length) && n <= |s| == length
  {
    && denominator == Denominator(exp, s, m, n) && |numerator| == p.g.width
    && forall d :: 0 <= d < p.g.width ==> numerator[d] == Numerator(exp, s, Channel(p, length, d), m, n)
  }

  function Times(a: real, b: real): real {
    a * b
  }

  function Scale(xs: seq<real>, c: real): (r: seq<real>)
    ensures |r| == |xs|
  {
    seq(|xs|, i requires 0 <= i < |xs| => xs[i] * c)
  }

  /** Changing the reference maximum is multiplying everything by one correction. */
  lemma Rescaled(exp: real -> real, p: Paged, s: seq<real>, length: nat, n: nat, m: real, next: real, denominator: real, numerator: seq<real>)
    requires IsExp(exp) && Fits(p, length) && n <= |s| == length && Running(exp, p, s, length, n, m, denominator, numerator)
    ensures Running(exp, p, s, length, n, next, Times(denominator, Weight(exp, m - next)), Scale(numerator, Weight(exp, m - next)))
  {
    hide IsExp, Fits, Denominator, Numerator, Channel;
    DenominatorShift(exp, s, m, next, n);
    forall d | 0 <= d < p.g.width
      ensures Scale(numerator, Weight(exp, m - next))[d] == Numerator(exp, s, Channel(p, length, d), next, n)
    {
      NumeratorShift(exp, s, Channel(p, length, d), m, next, n);
    }
  }

  lemma NothingRunning(exp: real -> real, p: Paged, s: seq<real>, length: nat, m: real, denominator: real, numerator: seq<real>, c: real)
    requires Fits(p, length) && |s| == length && denominator == 0.0 && |numerator| == p.g.width && forall d :: 0 <= d < |numerator| ==> numerator[d] == 0.0
    ensures Running(exp, p, s, length, 0, m, Times(denominator, c), Scale(numerator, c))
  {
  }

  /** The running state, or nothing yet. */
  ghost predicate SoFar(exp: real -> real, p: Paged, s: seq<real>, length: nat, n: nat, maximum: Option<real>, denominator: real, numerator: seq<real>)
    requires Fits(p, length) && n <= |s| == length
  {
    if maximum.None? then n == 0 && denominator == 0.0 && |numerator| == p.g.width && forall d :: 0 <= d < |numerator| ==> numerator[d] == 0.0
    else Running(exp, p, s, length, n, maximum.value, denominator, numerator)
  }

  /** exp(maximum - next), which is zero when there is no maximum yet. */
  function Correction(exp: real -> real, maximum: Option<real>, next: real): real {
    if maximum.None? then 0.0 else Weight(exp, maximum.value - next)
  }

  lemma Rebased(exp: real -> real, p: Paged, s: seq<real>, length: nat, n: nat, maximum: Option<real>, next: real, denominator: real, numerator: seq<real>)
    requires IsExp(exp) && Fits(p, length) && n <= |s| == length && SoFar(exp, p, s, length, n, maximum, denominator, numerator)
    ensures Running(exp, p, s, length, n, next, Times(denominator, Correction(exp, maximum, next)), Scale(numerator, Correction(exp, maximum, next)))
  {
    hide IsExp, Fits, Running, Scale, Times;
    if maximum.None? {
      NothingRunning(exp, p, s, length, next, denominator, numerator, 0.0);
    } else {
      Rescaled(exp, p, s, length, n, maximum.value, next, denominator, numerator);
    }
  }

  /** Adds the weighted values of one token. */
  method AddToken(exp: real -> real, p: Paged, length: nat, k: nat, base: nat, token: nat, weight: real, numerator: seq<real>) returns (next: seq<real>)
    requires Fits(p, length) && base == k * p.g.slots && token < p.g.slots && base + token < length && |numerator| == p.g.width
    ensures |next| == p.g.width && forall d :: 0 <= d < p.g.width ==> next[d] == numerator[d] + weight * Channel(p, length, d)[base + token]
  {
    hide Fits, RowAt;
    next := [];
    for d := 0 to p.g.width
      invariant |next| == d && forall x :: 0 <= x < d ==> next[x] == numerator[x] + weight * Channel(p, length, x)[base + token]
    {
      var value := TokenValue(p, length, k, base, token, d);
      next := next + [numerator[d] + weight * value];
    }
  }

  method TokenValue(p: Paged, length: nat, k: nat, base: nat, token: nat, d: nat) returns (value: real)
    requires Fits(p, length) && base == k * p.g.slots && token < p.g.slots && base + token < length && d < p.g.width
    ensures value == ValueAt(p, length, d, base + token)
  {
    hide Fits, PagedOk, L.Elements, RowAt;
    TokenPlace(p, length, k, base, token);
    value := TokenElement(p, p.values, length, k, base, token, d);
  }

  lemma RunningStep(exp: real -> real, p: Paged, s: seq<real>, length: nat, n: nat, m: real, denominator: real, numerator: seq<real>, next: seq<real>)
    requires Fits(p, length) && n < |s| == length && Running(exp, p, s, length, n, m, denominator, numerator)
    requires |next| == p.g.width && forall d :: 0 <= d < p.g.width ==> next[d] == numerator[d] + Weight(exp, s[n] - m) * Channel(p, length, d)[n]
    ensures Running(exp, p, s, length, n + 1, m, denominator + Weight(exp, s[n] - m), next)
  {
    hide Fits, Channel;
  }

  /** Block-wise attention with a running maximum: for every page size, length and placement of the pages it equals
      gathering the sequence and applying softmax. */
  method Attention(exp: real -> real, p: Paged, query: seq<real>, root: real, length: int) returns (r: Option<seq<real>>)
    requires (forall x: real :: exp(x) > 0.0) && (forall a: real, b: real :: exp(a + b) == exp(a) * exp(b))
    requires PagedOk(p) && root > 0.0
    ensures r.None? <==> length < 1 || length > |p.table| * p.g.slots || |query| != p.g.width
    ensures r.Some? ==> r.value == GatherAttention(exp, p, query, root, length)
    ensures r.Some? ==> exists s: seq<real> ::
      && |s| == length && (forall t :: 0 <= t < length ==> IsScore(p, query, root, t, s[t]))
      && |r.value| == p.g.width && forall d :: 0 <= d < p.g.width ==> IsWeightedMean(exp, p, s, d, r.value[d])
  {
    hide IsExp, PagedOk, Scores, Channel, Denominator, Numerator, MaxTo, Running, L.Elements, Correction, Scale, Times, IsScore, IsWeightedMean, GatherAttention;
    ExpLaw(exp);
    if length < 1 || length > |p.table| * p.g.slots || |query| != p.g.width {
      return None;
    }
    ghost var s := Scores(p, query, root, length);
    var numerator: seq<real> := seq(p.g.width, _ => 0.0);
    var denominator, maximum := 0.0, None;
    var k, base := 0, 0;
    SlotsPositive(p);
    while base < length
      invariant base == k * p.g.slots && (maximum.None? <==> base == 0) && (base > 0 ==> maximum == Some(MaxTo(s, Done(base, length))))
      invariant SoFar(exp, p, s, length, Done(base, length), maximum, denominator, numerator)
      decreases length - base
    {
      var count := if length - base < p.g.slots then length - base else p.g.slots;
      var scores, pageMax := PageScores(p, query, root, length, k, base, count);
      MaxJoin(s, base, scores, count);
      var next := if maximum.None? then pageMax else Larger(maximum.value, pageMax);
      var correction := Correction(exp, maximum, next);
      Rebased(exp, p, s, length, base, maximum, next, denominator, numerator);
      denominator, numerator := Times(denominator, correction), Scale(numerator, correction);
      for token := 0 to count
        invariant Running(exp, p, s, length, base + token, next, denominator, numerator)
      {
        var weight := Weight(exp, scores[token] - next);
        NumeratorSize(exp, p, s, length, base + token, next, denominator, numerator);
        var added := AddToken(exp, p, length, k, base, token, weight, numerator);
        RunningStep(exp, p, s, length, base + token, next, denominator, numerator, added);
        denominator, numerator := denominator + weight, added;
      }
      maximum := Some(next);
      MulMonotone(k, k, p.g.slots);
      k, base := k + 1, base + p.g.slots;
    }
    var out := Divided(numerator, denominator);
    FinalQuotients(exp, p, query, root, length, denominator, numerator, out);
    AttentionMeans(exp, p, query, root, length);
    return Some(out);
  }

  function Done(base: nat, length: nat): nat {
    if base < length then base else length
  }

  function Divided(xs: seq<real>, d: real): (r: seq<real>)
    ensures |r| == |xs|
  {
    seq(|xs|, i requires 0 <= i < |xs| => if d == 0.0 then 0.0 else xs[i] / d)
  }

  lemma SlotsPositive(p: Paged)
    requires PagedOk(p)
    ensures p.g.slots > 0
  {
  }

  lemma NumeratorSize(exp: real -> real, p: Paged, s: seq<real>, length: nat, n: nat, m: real, denominator: real, numerator: seq<real>)
    requires Fits(p, length) && n <= |s| == length && Running(exp, p, s, length, n, m, denominator, numerator)
    ensures |numerator| == p.g.width
  {
  }

  lemma FinalQuotients(exp: real -> real, p: Paged, query: seq<real>, root: real, length: nat, denominator: real, numerator: seq<real>, out: seq<real>)
    requires IsExp(exp) && Fits(p, length) && |query| == p.g.width && root > 0.0 && length > 0 && out == Divided(numerator, denominator)
    requires var s := Scores(p, query, root, length); Running(exp, p, s, length, length, MaxTo(s, length), denominator, numerator)
    ensures out == GatherAttention(exp, p, query, root, length)
  {
    hide IsExp, Fits, Denominator, Numerator, Channel, Scores, MaxTo, Gathered;
    var s := Scores(p, query, root, length);
    forall d | 0 <= d < p.g.width ensures out[d] == Gathered(exp, s, Channel(p, length, d), length) {
      GatheredIsQuotient(exp, s, Channel(p, length, d), length);
    }
  }

  // ---- What it means ----

  lemma ExpLaw(exp: real -> real)
    requires (forall x: real :: exp(x) > 0.0) && (forall a: real, b: real :: exp(a + b) == exp(a) * exp(b))
    ensures IsExp(exp)
  {
  }

  /** Where element `c` of token `t` is stored. */
  function Address(p: Paged, t: nat, c: nat): nat
    requires p.g.slots > 0 && t / p.g.slots < |p.table|
  {
    p.table[t / p.g.slots] * (p.g.slots * p.g.width) + t % p.g.slots * p.g.width + c
  }

  /** `x` times `root` is the product of the query with the stored key of token `t`. */
  ghost predicate IsScore(p: Paged, query: seq<real>, root: real, t: nat, x: real) {
    && p.g.slots > 0 && t / p.g.slots < |p.table| && |query| == p.g.width
    && exists terms: seq<real>, dot: real ::
         && SumsTo(terms, dot) && x * root == dot && |terms| == p.g.width
         && forall c :: 0 <= c < p.g.width ==> ProductAt(p, query, t, c, terms[c])
  }

  ghost predicate ProductAt(p: Paged, query: seq<real>, t: nat, c: nat, term: real)
    requires p.g.slots > 0 && t / p.g.slots < |p.table| && c < |query|
  {
    Address(p, t, c) < |p.keys| && term == query[c] * p.keys[Address(p, t, c)]
  }

  /** `y` is the mean of channel `d` of the stored values, each token weighted by the exponential of its score. */
  ghost predicate IsWeightedMean(exp: real -> real, p: Paged, s: seq<real>, d: nat, y: real) {
    exists weights: seq<real>, terms: seq<real>, total: real, sum: real ::
      && SumsTo(weights, total) && SumsTo(terms, sum) && |weights| == |terms| == |s| && total > 0.0 && y * total == sum
      && (forall t :: 0 <= t < |s| ==> weights[t] == exp(s[t]))
      && forall t :: 0 <= t < |s| ==> TermAt(p, t, d, weights[t], terms[t])
  }

  ghost predicate TermAt(p: Paged, t: nat, d: nat, weight: real, term: real) {
    p.g.slots > 0 && t / p.g.slots < |p.table| && Address(p, t, d) < |p.values| && term == weight * p.values[Address(p, t, d)]
  }

  lemma AttentionMeans(exp: real -> real, p: Paged, query: seq<real>, root: real, length: nat)
    requires IsExp(exp) && Fits(p, length) && |query| == p.g.width && root > 0.0 && length > 0
    ensures var s, out := Scores(p, query, root, length), GatherAttention(exp, p, query, root, length);
      && (forall t :: 0 <= t < length ==> IsScore(p, query, root, t, s[t]))
      && forall d :: 0 <= d < p.g.width ==> IsWeightedMean(exp, p, s, d, out[d])
  {
    hide IsExp, Fits, IsScore, IsWeightedMean, ScoreAt, Channel, Gathered;
    var s, out := Scores(p, query, root, length), GatherAttention(exp, p, query, root, length);
    forall t | 0 <= t < length ensures IsScore(p, query, root, t, s[t]) {
      ScoreMeans(p, query, root, length, t);
    }
    forall d | 0 <= d < p.g.width ensures IsWeightedMean(exp, p, s, d, out[d]) {
      MeanMeans(exp, p, s, length, d);
    }
  }

  /** The code's block-local address, at the page and slot of token `t`. */
  lemma ElementAt(p: Paged, data: seq<real>, length: nat, t: nat, c: nat)
    requires Fits(p, length) && |data| == L.Elements(p.g) && t < length && c < p.g.width
    ensures t / p.g.slots < |p.table| && Address(p, t, c) < |data| && data[Address(p, t, c)] == RowAt(p, data, t)[c]
  {
    InTable(p, length, t);
    DivisionBounds(t, p.g.slots);
    hide RowAt, L.Elements;
    PagedElement(p, data, length, t / p.g.slots, t / p.g.slots * p.g.slots, t % p.g.slots, c);
  }

  lemma ScoreMeans(p: Paged, query: seq<real>, root: real, length: nat, t: nat)
    requires Fits(p, length) && |query| == p.g.width && root > 0.0 && t < length
    ensures IsScore(p, query, root, t, ScoreAt(p, query, root, length, t))
  {
    InTable(p, length, t);
    var row := RowAt(p, p.keys, t);
    hide SumsTo, L.Elements, RowAt, ProductAt, DotTo;
    var terms, dot := DotSum(query, row);
    TimesRoot(dot, root);
    forall c | 0 <= c < p.g.width ensures ProductAt(p, query, t, c, terms[c]) {
      KeyStored(p, query, length, t, c, terms[c]);
    }
  }

  lemma KeyStored(p: Paged, query: seq<real>, length: nat, t: nat, c: nat, term: real)
    requires Fits(p, length) && |query| == p.g.width && t < length && c < p.g.width && t / p.g.slots < |p.table| && term == query[c] * RowAt(p, p.keys, t)[c]
    ensures ProductAt(p, query, t, c, term)
  {
    ElementAt(p, p.keys, length, t, c);
    hide RowAt, L.Elements;
  }

  lemma DotSum(a: seq<real>, b: seq<real>) returns (terms: seq<real>, dot: real)
    requires |a| == |b|
    ensures |terms| == |a| && (forall c :: 0 <= c < |a| ==> terms[c] == a[c] * b[c]) && SumsTo(terms, dot) && dot == DotTo(a, b, |a|)
  {
    terms := seq(|a|, c requires 0 <= c < |a| => a[c] * b[c]);
    dot := DotTo(a, b, |a|);
    var partial := seq(|a| + 1, i requires 0 <= i <= |a| => DotTo(a, b, i));
    assert IsRunningSum(terms, partial);
  }

  lemma TimesRoot(x: real, root: real)
    requires root > 0.0
    ensures x / root * root == x
  {
  }

  lemma MeanMeans(exp: real -> real, p: Paged, s: seq<real>, length: nat, d: nat)
    requires IsExp(exp) && Fits(p, length) && |s| == length > 0 && d < p.g.width
    ensures IsWeightedMean(exp, p, s, d, Gathered(exp, s, Channel(p, length, d), length))
  {
    hide IsExp, Fits, Gathered, Denominator, Numerator, SumsTo, Channel, TermAt, IsWeightedMean;
    var v := Channel(p, length, d);
    var weights, total := WeightsSum(exp, s);
    var terms, sum := TermsSum(exp, s, v);
    MeanOf(exp, s, v);
    forall t | 0 <= t < length ensures TermAt(p, t, d, weights[t], terms[t]) {
      ValueStored(p, length, d, t, weights[t], terms[t]);
    }
    MeanWitness(exp, p, s, d, Gathered(exp, s, v, length), weights, terms, total, sum);
  }

  lemma MeanWitness(exp: real -> real, p: Paged, s: seq<real>, d: nat, y: real, weights: seq<real>, terms: seq<real>, total: real, sum: real)
    requires SumsTo(weights, total) && SumsTo(terms, sum) && |weights| == |terms| == |s| && total > 0.0 && y * total == sum
    requires (forall t :: 0 <= t < |s| ==> weights[t] == exp(s[t])) && forall t :: 0 <= t < |s| ==> TermAt(p, t, d, weights[t], terms[t])
    ensures IsWeightedMean(exp, p, s, d, y)
  {
    hide SumsTo, TermAt;
  }

  lemma ValueStored(p: Paged, length: nat, d: nat, t: nat, weight: real, term: real)
    requires Fits(p, length) && d < p.g.width && t < length && term == weight * Channel(p, length, d)[t]
    ensures TermAt(p, t, d, weight, term)
  {
    ElementAt(p, p.values, length, t, d);
    hide RowAt, L.Elements;
  }

  lemma WeightsSum(exp: real -> real, s: seq<real>) returns (weights: seq<real>, total: real)
    ensures |weights| == |s| && (forall t :: 0 <= t < |s| ==> weights[t] == exp(s[t])) && SumsTo(weights, total) && total == Denominator(exp, s, 0.0, |s|)
  {
    weights := seq(|s|, t requires 0 <= t < |s| => exp(s[t]));
    total := Denominator(exp, s, 0.0, |s|);
    var partial := seq(|s| + 1, i requires 0 <= i <= |s| => Denominator(exp, s, 0.0, i));
    forall i | 0 <= i < |s| ensures partial[i + 1] == partial[i] + weights[i] {
      assert s[i] - 0.0 == s[i];
    }
    assert IsRunningSum(weights, partial);
  }

  lemma TermsSum(exp: real -> real, s: seq<real>, v: seq<real>) returns (terms: seq<real>, sum: real)
    requires |v| == |s|
    ensures |terms| == |s| && (forall t :: 0 <= t < |s| ==> terms[t] == exp(s[t]) * v[t]) && SumsTo(terms, sum) && sum == Numerator(exp, s, v, 0.0, |s|)
  {
    terms := seq(|s|, t requires 0 <= t < |s| => exp(s[t]) * v[t]);
    sum := Numerator(exp, s, v, 0.0, |s|);
    var partial := seq(|s| + 1, i requires 0 <= i <= |s| => Numerator(exp, s, v, 0.0, i));
    forall i | 0 <= i < |s| ensures partial[i + 1] == partial[i] + terms[i] {
      assert s[i] - 0.0 == s[i];
    }
    assert IsRunningSum(terms, partial);
  }

  /** Relative to no reference at all the quotient is the same. */
  lemma MeanOf(exp: real -> real, s: seq<real>, v: seq<real>)
    requires IsExp(exp) && |v| == |s| > 0
    ensures Denominator(exp, s, 0.0, |s|) > 0.0
    ensures Gathered(exp, s, v, |s|) * Denominator(exp, s, 0.0, |s|) == Numerator(exp, s, v, 0.0, |s|)
  {
    hide IsExp, Gathered, Denominator, Numerator, MaxTo, Weight;
    var m := MaxTo(s, |s|);
    var w := PositiveWeight(exp, m);
    GatheredIsQuotient(exp, s, v, |s|);
    DenominatorShift(exp, s, 0.0, m, |s|);
    NumeratorShift(exp, s, v, 0.0, m, |s|);
    DenominatorPositive(exp, s, 0.0, |s|);
    CancelWeight(Gathered(exp, s, v, |s|), Denominator(exp, s, 0.0, |s|), Numerator(exp, s, v, 0.0, |s|), w,
                 Denominator(exp, s, m, |s|), Numerator(exp, s, v, m, |s|));
  }

  lemma PositiveWeight(exp: real -> real, m: real) returns (w: real)
    requires IsExp(exp)
    ensures w == Weight(exp, 0.0 - m) && w > 0.0
  {
    w := Weight(exp, 0.0 - m);
  }

  lemma CancelWeight(y: real, d: real, n: real, w: real, dw: real, nw: real)
    requires w > 0.0 && dw > 0.0 && dw == d * w && nw == n * w && y == nw / dw
    ensures y * d == n
  {
    TimesRoot(nw, dw);
    assert y * dw == nw;
    Reassociate(y, d, w);
    CancelFactor(y * d, n, w);
  }

  lemma Reassociate(a: real, b: real, c: real)
    ensures a * (b * c) == (a * b) * c
  {
  }

  lemma CancelFactor(a: real, b: real, w: real)
    requires w > 0.0 && a * w == b * w
    ensures a == b
  {
    assert (a - b) * w == 0.0;
  }
}
