/** MemoryPlan (src/runtime/memory_plan.cpp): lifetimes of intermediate values, their slots and byte ranges in one
    shared buffer, and what each execution step may release. */
module MemoryPlanning {
  import opened Arithmetic
  import opened Prelude
  import opened GraphOrder
  import opened SlotAllocation

  datatype Allocation = Allocation(slot: nat, offset: nat, bytes: nat)

  datatype Plan = Plan(
    order: seq<nat>, lifetimes: seq<Option<Lifetime>>, releases: seq<seq<nat>>,
    allocations: seq<Option<Allocation>>, capacities: seq<nat>, total: nat)

  // ---- What a lifetime is ----

  predicate Uses(g: Graph, order: seq<nat>, k: nat, v: nat)
    requires k < |order|
  {
    order[k] < |g.nodes| && v in g.nodes[order[k]].inputs
  }

  /** From the producing step to the last using step; to the end of the run for a graph output. */
  ghost predicate IsLifetime(g: Graph, order: seq<nat>, v: nat, t: Lifetime)
    requires v < |g.values|
  {
    && t.value == v && t.bytes == g.values[v].bytes
    && t.first < |order| && g.values[v].producer == Some(order[t.first]) && t.first <= t.last
    && (if v in g.outputs then t.last == |order|
        else
          && (forall k :: 0 <= k < |order| && Uses(g, order, k, v) ==> k <= t.last)
          && t.last < |order| && (t.last == t.first || Uses(g, order, t.last, v)))
  }

  ghost predicate LifetimesOk(g: Graph, order: seq<nat>, lifetimes: seq<Option<Lifetime>>) {
    && |lifetimes| == |g.values|
    && forall v :: 0 <= v < |g.values| ==>
         (lifetimes[v].Some? <==> g.values[v].kind == Intermediate) && (lifetimes[v].Some? ==> IsLifetime(g, order, v, lifetimes[v].value))
  }

  // ---- Computing lifetimes ----

  /** The step of every node. */
  method NodeSteps(g: Graph, order: seq<nat>) returns (steps: seq<nat>)
    requires IsOrder(g, order) && |order| == |g.nodes|
    ensures |steps| == |g.nodes| && forall n :: 0 <= n < |g.nodes| ==> steps[n] < |order| && order[steps[n]] == n
  {
    hide Dependencies, ChosenAt;
    InRange(g, order);
    steps := seq(|g.nodes|, _ => 0);
    for k := 0 to |order|
      invariant |steps| == |g.nodes|
      invariant forall j :: 0 <= j < k ==> steps[order[j]] == j
    {
      steps := steps[order[k] := k];
    }
    forall n | 0 <= n < |g.nodes| ensures steps[n] < |order| && order[steps[n]] == n {
      assert n in order;
      var j :| 0 <= j < |order| && order[j] == n;
    }
  }

  /** During the scan: uses of the first `n` steps are covered. */
  ghost predicate Covered(g: Graph, order: seq<nat>, t: Lifetime, v: nat, n: nat)
    requires v < |g.values| && n <= |order|
  {
    && t.value == v && t.bytes == g.values[v].bytes && t.first < |order| && g.values[v].producer == Some(order[t.first])
    && t.first <= t.last < |order| && (t.last == t.first || Uses(g, order, t.last, v))
    && forall k :: 0 <= k < n && Uses(g, order, k, v) ==> k <= t.last
  }

  ghost predicate AllCovered(g: Graph, order: seq<nat>, lifetimes: seq<Option<Lifetime>>, n: nat)
    requires n <= |order|
  {
    && |lifetimes| == |g.values|
    && forall v :: 0 <= v < |g.values| ==>
         (lifetimes[v].Some? <==> g.values[v].kind == Intermediate) && (lifetimes[v].Some? ==> Covered(g, order, lifetimes[v].value, v, n))
  }

  method StartLifetimes(g: Graph, order: seq<nat>) returns (lifetimes: seq<Option<Lifetime>>)
    requires Consistent(g) && IsOrder(g, order) && |order| == |g.nodes|
    ensures AllCovered(g, order, lifetimes, 0)
  {
    hide IsOrder;
    var steps := NodeSteps(g, order);
    lifetimes := [];
    for v := 0 to |g.values|
      invariant |lifetimes| == v
      invariant forall x :: 0 <= x < v ==>
        (lifetimes[x].Some? <==> g.values[x].kind == Intermediate) && (lifetimes[x].Some? ==> Covered(g, order, lifetimes[x].value, x, 0))
    {
      assert ValueOk(g, v);
      if g.values[v].kind == Intermediate {
        var start := steps[g.values[v].producer.value];
        lifetimes := lifetimes + [Some(Lifetime(v, start, start, g.values[v].bytes))];
      } else {
        lifetimes := lifetimes + [None];
      }
    }
  }

  function Later(t: Lifetime, k: nat): Lifetime {
    t.(last := if t.last < k then k else t.last)
  }

  /** Extends the lifetimes of the inputs of step `k`. */
  method ScanStep(g: Graph, order: seq<nat>, lifetimes: seq<Option<Lifetime>>, k: nat) returns (scanned: seq<Option<Lifetime>>)
    requires Consistent(g) && k < |order| && order[k] < |g.nodes| && AllCovered(g, order, lifetimes, k)
    ensures AllCovered(g, order, scanned, k + 1)
  {
    var inputs := g.nodes[order[k]].inputs;
    assert NodeOk(g, order[k]);
    hide Consistent, Covered;
    scanned := lifetimes;
    for i := 0 to |inputs|
      invariant |scanned| == |lifetimes|
      invariant forall v :: 0 <= v < |lifetimes| ==>
        scanned[v] == if lifetimes[v].Some? && v in inputs[..i] then Some(Later(lifetimes[v].value, k)) else lifetimes[v]
    {
      var input := inputs[i];
      assert inputs[..i + 1] == inputs[..i] + [input];
      if scanned[input].Some? {
        scanned := scanned[input := Some(Later(scanned[input].value, k))];
      }
    }
    assert inputs[..|inputs|] == inputs;
    forall v | 0 <= v < |g.values| && scanned[v].Some? ensures Covered(g, order, scanned[v].value, v, k + 1) {
      CoverStep(g, order, lifetimes[v].value, v, k);
    }
  }

  lemma CoverStep(g: Graph, order: seq<nat>, t: Lifetime, v: nat, k: nat)
    requires v < |g.values| && k < |order| && order[k] < |g.nodes| && Covered(g, order, t, v, k)
    ensures Covered(g, order, if v in g.nodes[order[k]].inputs then Later(t, k) else t, v, k + 1)
  {
  }

  /** Lifetimes of all intermediate values. */
  method Lifetimes(g: Graph, order: seq<nat>) returns (lifetimes: seq<Option<Lifetime>>)
    requires Consistent(g) && IsOrder(g, order) && |order| == |g.nodes|
    ensures LifetimesOk(g, order, lifetimes)
  {
    lifetimes := StartLifetimes(g, order);
    InRange(g, order);
    hide Consistent, IsOrder, Covered, IsLifetime, AllCovered;
    for k := 0 to |order|
      invariant AllCovered(g, order, lifetimes, k)
    {
      lifetimes := ScanStep(g, order, lifetimes, k);
    }
    OutputsInRange(g);
    CoveredFacts(g, order, lifetimes);
    ghost var scanned := lifetimes;
    for i := 0 to |g.outputs|
      invariant |lifetimes| == |scanned|
      invariant forall v :: 0 <= v < |scanned| ==>
        lifetimes[v] == if scanned[v].Some? && v in g.outputs[..i] then Some(scanned[v].value.(last := |order|)) else scanned[v]
    {
      var output := g.outputs[i];
      assert g.outputs[..i + 1] == g.outputs[..i] + [output];
      if lifetimes[output].Some? {
        lifetimes := lifetimes[output := Some(lifetimes[output].value.(last := |order|))];
      }
    }
    assert g.outputs[..|g.outputs|] == g.outputs;
    forall v | 0 <= v < |g.values| && lifetimes[v].Some? ensures IsLifetime(g, order, v, lifetimes[v].value) {
      FinalLifetime(g, order, scanned[v].value, v);
    }
  }

  lemma OutputsInRange(g: Graph)
    requires Consistent(g)
    ensures forall i :: 0 <= i < |g.outputs| ==> g.outputs[i] < |g.values|
  {
  }

  lemma CoveredFacts(g: Graph, order: seq<nat>, lifetimes: seq<Option<Lifetime>>)
    requires AllCovered(g, order, lifetimes, |order|)
    ensures |lifetimes| == |g.values|
    ensures forall v :: 0 <= v < |g.values| ==> (lifetimes[v].Some? <==> g.values[v].kind == Intermediate)
    ensures forall v :: 0 <= v < |g.values| && lifetimes[v].Some? ==> Covered(g, order, lifetimes[v].value, v, |order|)
  {
  }

  lemma FinalLifetime(g: Graph, order: seq<nat>, t: Lifetime, v: nat)
    requires v < |g.values| && Covered(g, order, t, v, |order|)
    ensures IsLifetime(g, order, v, if v in g.outputs then t.(last := |order|) else t)
  {
  }

  // ---- Offsets ----

  /** The smallest multiple of the alignment at or above a size. */
  function AlignUp(value: nat, alignment: nat): (r: nat)
    requires alignment > 0
    ensures value <= r < value + alignment && r % alignment == 0
  {
    var excess := value % alignment;
    if excess == 0 then value
    else
      AlignNext(value, alignment);
      value + alignment - excess
  }

  lemma AlignNext(value: nat, alignment: nat)
    requires alignment > 0
    ensures (value + alignment - value % alignment) % alignment == 0
  {
    var q := value / alignment;
    DivisionBounds(value, alignment);
    MulMonotone(q, q, alignment);
    MultipleOfSize(q + 1, alignment);
  }

  ghost predicate OffsetsOk(capacities: seq<nat>, offsets: seq<nat>, total: nat, alignment: nat)
    requires alignment > 0
  {
    && |offsets| <= |capacities|
    && (forall i :: 0 <= i < |offsets| ==> offsets[i] % alignment == 0 && offsets[i] + capacities[i] <= total)
    && (forall i, j :: 0 <= i < j < |offsets| ==> offsets[i] + capacities[i] <= offsets[j])
  }

  /** No slot starts later than alignment makes it, and the buffer ends with the last slot. */
  ghost predicate Tight(capacities: seq<nat>, offsets: seq<nat>, total: nat, alignment: nat) {
    && |offsets| <= |capacities| && (forall i :: 0 <= i < |offsets| ==> offsets[i] < (if i == 0 then 0 else offsets[i - 1] + capacities[i - 1]) + alignment)
    && total == if offsets == [] then 0 else offsets[|offsets| - 1] + capacities[|offsets| - 1]
  }

  /** One aligned range per slot, one after the other. */
  method SlotOffsets(capacities: seq<nat>, alignment: nat) returns (offsets: seq<nat>, total: nat)
    requires alignment > 0
    ensures |offsets| == |capacities| && OffsetsOk(capacities, offsets, total, alignment) && Tight(capacities, offsets, total, alignment)
  {
    offsets, total := [], 0;
    for slot := 0 to |capacities|
      invariant |offsets| == slot && OffsetsOk(capacities, offsets, total, alignment) && Tight(capacities, offsets, total, alignment)
    {
      total := AlignUp(total, alignment);
      offsets := offsets + [total];
      total := total + capacities[slot];
    }
  }

  // ---- Intervals ----

  /** Bytes of all intermediate values, one buffer each. */
  function NaiveBytes(lifetimes: seq<Option<Lifetime>>): nat {
    if lifetimes == [] then 0
    else
      var n := |lifetimes| - 1;
      NaiveBytes(lifetimes[..n]) + if lifetimes[n].Some? then lifetimes[n].value.bytes else 0
  }

  /** The intervals are exactly the lifetimes. */
  ghost predicate Collected(lifetimes: seq<Option<Lifetime>>, s: seq<Lifetime>) {
    && (forall i :: 0 <= i < |s| ==> s[i].value < |lifetimes| && lifetimes[s[i].value] == Some(s[i]))
    && (forall i, j :: 0 <= i < j < |s| ==> s[i].value != s[j].value)
    && (forall v :: 0 <= v < |lifetimes| && lifetimes[v].Some? ==> lifetimes[v].value in s)
  }

  ghost predicate Labelled(lifetimes: seq<Option<Lifetime>>) {
    forall v :: 0 <= v < |lifetimes| && lifetimes[v].Some? ==> lifetimes[v].value.value == v
  }

  method Collect(lifetimes: seq<Option<Lifetime>>) returns (s: seq<Lifetime>)
    requires Labelled(lifetimes)
    ensures Collected(lifetimes, s) && Sum(Bytes(s)) == NaiveBytes(lifetimes)
  {
    hide Sum, Collected, Labelled;
    s := [];
    NothingCollected(lifetimes);
    for v := 0 to |lifetimes|
      invariant Collected(lifetimes[..v], s) && Sum(Bytes(s)) == NaiveBytes(lifetimes[..v])
    {
      assert lifetimes[..v + 1][..v] == lifetimes[..v];
      CollectStep(lifetimes, s, v);
      if lifetimes[v].Some? {
        SumSnoc(Bytes(s), lifetimes[v].value.bytes);
        assert Bytes(s + [lifetimes[v].value]) == Bytes(s) + [lifetimes[v].value.bytes];
        s := s + [lifetimes[v].value];
      }
    }
    assert lifetimes[..|lifetimes|] == lifetimes;
  }

  lemma NothingCollected(lifetimes: seq<Option<Lifetime>>)
    ensures Collected(lifetimes[..0], []) && Sum(Bytes([])) == 0
  {
  }

  lemma CollectStep(lifetimes: seq<Option<Lifetime>>, s: seq<Lifetime>, v: nat)
    requires v < |lifetimes| && Collected(lifetimes[..v], s) && Labelled(lifetimes)
    ensures Collected(lifetimes[..v + 1], if lifetimes[v].Some? then s + [lifetimes[v].value] else s)
  {
    hide Collected;
    assert lifetimes[..v + 1] == lifetimes[..v] + [lifetimes[v]];
    if lifetimes[v].Some? {
      CollectOne(lifetimes[..v], s, lifetimes[v].value);
    } else {
      CollectNone(lifetimes[..v], s);
    }
  }

  lemma CollectNone(before: seq<Option<Lifetime>>, s: seq<Lifetime>)
    requires Collected(before, s)
    ensures Collected(before + [None], s)
  {
  }

  lemma CollectOne(before: seq<Option<Lifetime>>, s: seq<Lifetime>, x: Lifetime)
    requires Collected(before, s) && x.value == |before|
    ensures Collected(before + [Some(x)], s + [x])
  {
    var t := s + [x];
    assert t[|s|] == x && forall i :: 0 <= i < |s| ==> t[i] == s[i];
    assert forall y :: y in s ==> y in t;
  }

  lemma {:induction false} SumPermutation(s: seq<Lifetime>, t: seq<Lifetime>)
    requires multiset(s) == multiset(t)
    ensures Sum(Bytes(s)) == Sum(Bytes(t))
    decreases |s|
  {
    if s == [] {
      assert |multiset(t)| == 0;
      assert t == [];
    } else {
      var n := |s| - 1;
      var x := s[n];
      assert s == s[..n] + [x];
      assert x in multiset(t);
      var k :| 0 <= k < |t| && t[k] == x;
      var rest := t[..k] + t[k + 1..];
      MultisetWithout(t, k);
      MultisetSnoc(s);
      Cancel(multiset(rest), multiset(s[..n]), multiset{x});
      hide Sum;
      SumPermutation(s[..n], rest);
      SumSnoc(Bytes(s[..n]), x.bytes);
      assert Bytes(s) == Bytes(s[..n]) + [x.bytes];
      SumWithout(t, k);
    }
  }

  lemma MultisetWithout(t: seq<Lifetime>, k: nat)
    requires k < |t|
    ensures multiset(t) == multiset(t[..k] + t[k + 1..]) + multiset{t[k]}
  {
    assert t == t[..k] + [t[k]] + t[k + 1..];
  }

  lemma SumWithout(t: seq<Lifetime>, k: nat)
    requires k < |t|
    ensures Sum(Bytes(t)) == Sum(Bytes(t[..k] + t[k + 1..])) + t[k].bytes
  {
    SumConcat(Bytes(t)[..k], Bytes(t)[k..]);
    SumConcat([t[k].bytes], Bytes(t)[k + 1..]);
    SumConcat(Bytes(t)[..k], Bytes(t)[k + 1..]);
    assert Bytes(t) == Bytes(t)[..k] + Bytes(t)[k..];
    assert Bytes(t)[k..] == [t[k].bytes] + Bytes(t)[k + 1..];
    assert Bytes(t[..k] + t[k + 1..]) == Bytes(t)[..k] + Bytes(t)[k + 1..];
    SumSnoc([], t[k].bytes);
    assert [] + [t[k].bytes] == [t[k].bytes];
  }

  lemma {:induction false} SumConcat(a: seq<nat>, b: seq<nat>)
    ensures Sum(a + b) == Sum(a) + Sum(b)
    decreases |b|
  {
    if b == [] {
      assert a + b == a;
    } else {
      var n := |b| - 1;
      SumConcat(a, b[..n]);
      assert (a + b)[..|a| + n] == a + b[..n];
    }
  }

  lemma SortedCollected(lifetimes: seq<Option<Lifetime>>, s: seq<Lifetime>, t: seq<Lifetime>)
    requires Collected(lifetimes, s) && multiset(t) == multiset(s) && StrictlySorted(t) && Proper'(lifetimes)
    ensures Collected(lifetimes, t) && Proper(t)
  {
    forall i | 0 <= i < |t| ensures t[i] in s {
      assert t[i] in multiset(t);
    }
    forall x | x in s ensures x in t {
      assert x in multiset(t);
    }
    forall i, j | 0 <= i < j < |t| ensures t[i].value != t[j].value {
      assert Before(t[i], t[j]);
    }
  }

  ghost predicate Proper'(lifetimes: seq<Option<Lifetime>>) {
    forall v :: 0 <= v < |lifetimes| && lifetimes[v].Some? ==> lifetimes[v].value.first <= lifetimes[v].value.last
  }

  // ---- Releases ----

  /** Exactly the values whose last step is `k`. */
  ghost predicate ReleasedAt(lifetimes: seq<Option<Lifetime>>, list: seq<nat>, k: nat) {
    forall v: nat :: v in list <==> v < |lifetimes| && lifetimes[v].Some? && lifetimes[v].value.last == k
  }

  ghost predicate ReleasesOk(lifetimes: seq<Option<Lifetime>>, releases: seq<seq<nat>>) {
    forall k :: 0 <= k < |releases| ==> ReleasedAt(lifetimes, releases[k], k)
  }

  lemma ReleasedStep(lifetimes: seq<Option<Lifetime>>, list: seq<nat>, x: nat, k: nat)
    requires x < |lifetimes| && ReleasedAt(lifetimes[..x], list, k)
    ensures ReleasedAt(lifetimes[..x + 1], if lifetimes[x].Some? && lifetimes[x].value.last == k then list + [x] else list, k)
  {
    var more := lifetimes[..x + 1];
    forall v: nat | v < x ensures more[v] == lifetimes[..x][v] {
    }
  }

  method Releases(lifetimes: seq<Option<Lifetime>>, steps: nat) returns (releases: seq<seq<nat>>)
    ensures |releases| == steps && ReleasesOk(lifetimes, releases)
  {
    releases := seq(steps, _ => []);
    for x := 0 to |lifetimes|
      invariant |releases| == steps && ReleasesOk(lifetimes[..x], releases)
    {
      hide ReleasedAt;
      ghost var before := releases;
      if lifetimes[x].Some? && lifetimes[x].value.last < steps {
        var k := lifetimes[x].value.last;
        releases := releases[k := releases[k] + [x]];
      }
      forall k | 0 <= k < steps ensures ReleasedAt(lifetimes[..x + 1], releases[k], k) {
        ReleasedStep(lifetimes, before[k], x, k);
      }
    }
    assert lifetimes[..|lifetimes|] == lifetimes;
  }

  // ---- The plan ----

  predicate Disjoint(a: Allocation, b: Allocation) {
    a.offset + a.bytes <= b.offset || b.offset + b.bytes <= a.offset
  }

  ghost function LiveValues(lifetimes: seq<Option<Lifetime>>, t: nat): set<nat> {
    set v | 0 <= v < |lifetimes| && lifetimes[v].Some? && lifetimes[v].value.first <= t <= lifetimes[v].value.last
  }

  /** Every intermediate value has room for its bytes inside the buffer. */
  ghost predicate InBounds(p: Plan) {
    && |p.allocations| == |p.lifetimes|
    && forall v :: 0 <= v < |p.lifetimes| ==>
         && (p.allocations[v].Some? <==> p.lifetimes[v].Some?)
         && (p.allocations[v].Some? ==>
               var a := p.allocations[v].value;
               && a.bytes == p.lifetimes[v].value.bytes && a.slot < |p.capacities| && a.bytes <= p.capacities[a.slot]
               && a.offset + a.bytes <= p.total)
  }

  predicate AliveTogether(a: Option<Lifetime>, b: Option<Lifetime>) {
    a.Some? && b.Some? && Overlap(a.value, b.value)
  }

  /** Values alive at a common step are in different slots and in disjoint byte ranges. */
  ghost predicate Apart(p: Plan)
    requires |p.allocations| == |p.lifetimes|
  {
    forall v, w | 0 <= v < |p.lifetimes| && 0 <= w < |p.lifetimes| && v != w && AliveTogether(p.lifetimes[v], p.lifetimes[w]) ::
      && p.allocations[v].Some? && p.allocations[w].Some?
      && p.allocations[v].value.slot != p.allocations[w].value.slot && Disjoint(p.allocations[v].value, p.allocations[w].value)
  }

  /** As many slots as the peak number of values alive at one step. */
  ghost predicate SlotsArePeak(p: Plan) {
    && (forall t: nat :: |LiveValues(p.lifetimes, t)| <= |p.capacities|)
    && exists t: nat :: |LiveValues(p.lifetimes, t)| == |p.capacities|
  }

  ghost predicate PlanOk(g: Graph, p: Plan) {
    && IsOrder(g, p.order) && |p.order| == |g.nodes| && LifetimesOk(g, p.order, p.lifetimes)
    && |p.releases| == |p.order| && ReleasesOk(p.lifetimes, p.releases)
    && InBounds(p) && Apart(p) && SlotsArePeak(p) && Sum(p.capacities) <= NaiveBytes(p.lifetimes)
  }

  /** Every allocation starts at a multiple of the alignment. */
  ghost predicate AlignedTo(p: Plan, alignment: nat)
    requires alignment > 0
  {
    forall v :: 0 <= v < |p.allocations| && p.allocations[v].Some? ==> p.allocations[v].value.offset % alignment == 0
  }

  /** A slot is as large as the largest value it ever holds, and no larger. */
  ghost predicate Filled(p: Plan, c: nat)
    requires c < |p.capacities|
  {
    exists v :: 0 <= v < |p.allocations| && p.allocations[v].Some? && p.allocations[v].value.slot == c && p.allocations[v].value.bytes == p.capacities[c]
  }

  lemma PlanFilled(p: Plan, s: seq<Lifetime>, slots: seq<nat>, offsets: seq<nat>)
    requires Collected(p.lifetimes, s) && |slots| == |s| && (forall i :: 0 <= i < |slots| ==> slots[i] < |offsets|)
    requires AllocationsOk(p.lifetimes, s, slots, offsets, |s|, p.allocations)
    requires forall c :: 0 <= c < |p.capacities| ==> SomeoneFills(s, slots, c, p.capacities[c])
    ensures forall c :: 0 <= c < |p.capacities| ==> Filled(p, c)
  {
    forall c | 0 <= c < |p.capacities| ensures Filled(p, c) {
      assert SomeoneFills(s, slots, c, p.capacities[c]);
      var i :| 0 <= i < |slots| && i < |s| && slots[i] == c && s[i].bytes == p.capacities[c];
      assert p.allocations[s[i].value] == Some(Allocation(slots[i], offsets[slots[i]], s[i].bytes));
    }
  }

  ghost predicate AllocationsOk(lifetimes: seq<Option<Lifetime>>, s: seq<Lifetime>, slots: seq<nat>, offsets: seq<nat>, n: nat, allocations: seq<Option<Allocation>>)
    requires n <= |s| == |slots| && (forall i :: 0 <= i < |slots| ==> slots[i] < |offsets|) && Collected(lifetimes, s)
  {
    && |allocations| == |lifetimes|
    && (forall i :: 0 <= i < n ==> allocations[s[i].value] == Some(Allocation(slots[i], offsets[slots[i]], s[i].bytes)))
    && (forall v :: 0 <= v < |lifetimes| && lifetimes[v].None? ==> allocations[v].None?)
  }

  method Allocate(lifetimes: seq<Option<Lifetime>>, s: seq<Lifetime>, slots: seq<nat>, offsets: seq<nat>) returns (allocations: seq<Option<Allocation>>)
    requires |s| == |slots| && (forall i :: 0 <= i < |slots| ==> slots[i] < |offsets|) && Collected(lifetimes, s)
    ensures AllocationsOk(lifetimes, s, slots, offsets, |s|, allocations)
  {
    allocations := seq(|lifetimes|, _ => None);
    for i := 0 to |s|
      invariant AllocationsOk(lifetimes, s, slots, offsets, i, allocations)
    {
      allocations := allocations[s[i].value := Some(Allocation(slots[i], offsets[slots[i]], s[i].bytes))];
    }
  }

  lemma IndexOf(lifetimes: seq<Option<Lifetime>>, s: seq<Lifetime>, v: nat) returns (i: nat)
    requires Collected(lifetimes, s) && v < |lifetimes| && lifetimes[v].Some? && Labelled(lifetimes)
    ensures i < |s| && s[i] == lifetimes[v].value && s[i].value == v
  {
    i :| 0 <= i < |s| && s[i] == lifetimes[v].value;
  }

  lemma PlanInBounds(p: Plan, s: seq<Lifetime>, slots: seq<nat>, offsets: seq<nat>, alignment: nat)
    requires Collected(p.lifetimes, s) && Labelled(p.lifetimes) && alignment > 0
    requires |slots| == |s| && Separate(s, slots, p.capacities) && |offsets| == |p.capacities| && OffsetsOk(p.capacities, offsets, p.total, alignment)
    requires AllocationsOk(p.lifetimes, s, slots, offsets, |s|, p.allocations)
    ensures InBounds(p)
  {
    forall v | 0 <= v < |p.lifetimes|
      ensures p.allocations[v].Some? <==> p.lifetimes[v].Some?
      ensures p.allocations[v].Some? ==>
        var a := p.allocations[v].value;
        && a.bytes == p.lifetimes[v].value.bytes && a.slot < |p.capacities| && a.bytes <= p.capacities[a.slot]
        && a.offset + a.bytes <= p.total
    {
      if p.lifetimes[v].Some? {
        var i := IndexOf(p.lifetimes, s, v);
      }
    }
  }

  lemma PlanAligned(p: Plan, s: seq<Lifetime>, slots: seq<nat>, offsets: seq<nat>, alignment: nat)
    requires Collected(p.lifetimes, s) && Labelled(p.lifetimes) && alignment > 0
    requires |slots| == |s| && Separate(s, slots, p.capacities) && |offsets| == |p.capacities| && OffsetsOk(p.capacities, offsets, p.total, alignment)
    requires AllocationsOk(p.lifetimes, s, slots, offsets, |s|, p.allocations)
    ensures AlignedTo(p, alignment)
  {
    forall v | 0 <= v < |p.allocations| && p.allocations[v].Some? ensures p.allocations[v].value.offset % alignment == 0 {
      var i := IndexOf(p.lifetimes, s, v);
      assert slots[i] < |offsets|;
    }
  }

  lemma SlotsApart(capacities: seq<nat>, offsets: seq<nat>, total: nat, alignment: nat, a: Allocation, b: Allocation)
    requires alignment > 0 && |offsets| == |capacities| && OffsetsOk(capacities, offsets, total, alignment)
    requires a.slot < |offsets| && b.slot < |offsets| && a.slot != b.slot && a.offset == offsets[a.slot] && b.offset == offsets[b.slot]
    requires a.bytes <= capacities[a.slot] && b.bytes <= capacities[b.slot]
    ensures Disjoint(a, b)
  {
    if a.slot < b.slot {
      assert offsets[a.slot] + capacities[a.slot] <= offsets[b.slot];
    } else {
      assert offsets[b.slot] + capacities[b.slot] <= offsets[a.slot];
    }
  }

  lemma PlanApart(p: Plan, s: seq<Lifetime>, slots: seq<nat>, offsets: seq<nat>, alignment: nat)
    requires Collected(p.lifetimes, s) && Labelled(p.lifetimes) && alignment > 0 && Proper(s)
    requires |slots| == |s| && Separate(s, slots, p.capacities) && |offsets| == |p.capacities| && OffsetsOk(p.capacities, offsets, p.total, alignment)
    requires AllocationsOk(p.lifetimes, s, slots, offsets, |s|, p.allocations)
    ensures Apart(p)
  {
    forall v, w | 0 <= v < |p.lifetimes| && 0 <= w < |p.lifetimes| && v != w && AliveTogether(p.lifetimes[v], p.lifetimes[w])
      ensures p.allocations[v].Some? && p.allocations[w].Some?
      ensures p.allocations[v].value.slot != p.allocations[w].value.slot && Disjoint(p.allocations[v].value, p.allocations[w].value)
    {
      PairApart(p, s, slots, offsets, alignment, v, w);
    }
  }

  lemma PairApart(p: Plan, s: seq<Lifetime>, slots: seq<nat>, offsets: seq<nat>, alignment: nat, v: nat, w: nat)
    requires Collected(p.lifetimes, s) && Labelled(p.lifetimes) && alignment > 0
    requires |slots| == |s| && Separate(s, slots, p.capacities) && |offsets| == |p.capacities| && OffsetsOk(p.capacities, offsets, p.total, alignment)
    requires AllocationsOk(p.lifetimes, s, slots, offsets, |s|, p.allocations)
    requires v < |p.lifetimes| && w < |p.lifetimes| && v != w && p.lifetimes[v].Some? && p.lifetimes[w].Some?
    requires Overlap(p.lifetimes[v].value, p.lifetimes[w].value)
    ensures p.allocations[v].Some? && p.allocations[w].Some?
    ensures p.allocations[v].value.slot != p.allocations[w].value.slot && Disjoint(p.allocations[v].value, p.allocations[w].value)
  {
    var i := IndexOf(p.lifetimes, s, v);
    var j := IndexOf(p.lifetimes, s, w);
    hide OffsetsOk, Disjoint, Collected;
    if i < j {
      assert slots[i] != slots[j];
    } else {
      assert slots[j] != slots[i];
    }
    SlotsApart(p.capacities, offsets, p.total, alignment, p.allocations[v].value, p.allocations[w].value);
  }

  // ---- Peak ----

  lemma LiveSame(lifetimes: seq<Option<Lifetime>>, s: seq<Lifetime>, t: nat)
    requires Collected(lifetimes, s) && Labelled(lifetimes)
    ensures |LiveValues(lifetimes, t)| == |LiveAt(s, t)|
  {
    var values := ValuesOf(s);
    InjectionBound(LiveAt(s, t), values, LiveValues(lifetimes, t));
    var places := Places(lifetimes, s);
    forall v | v in LiveValues(lifetimes, t) ensures places[v] in LiveAt(s, t) {
      assert places[v] < |s| && s[places[v]] == lifetimes[v].value;
    }
    forall v, w | v in LiveValues(lifetimes, t) && w in LiveValues(lifetimes, t) && v != w ensures places[v] != places[w] {
      assert s[places[v]] == lifetimes[v].value && s[places[w]] == lifetimes[w].value;
    }
    InjectionBound(LiveValues(lifetimes, t), places, LiveAt(s, t));
  }

  ghost function ValuesOf(s: seq<Lifetime>): (r: seq<nat>)
    ensures |r| == |s| && forall i :: 0 <= i < |s| ==> r[i] == s[i].value
  {
    seq(|s|, i requires 0 <= i < |s| => s[i].value)
  }

  lemma {:induction false} Places(lifetimes: seq<Option<Lifetime>>, s: seq<Lifetime>) returns (places: seq<nat>)
    requires Collected(lifetimes, s) && Labelled(lifetimes)
    ensures |places| == |lifetimes|
    ensures forall v :: 0 <= v < |lifetimes| && lifetimes[v].Some? ==> places[v] < |s| && s[places[v]] == lifetimes[v].value
  {
    places := [];
    for v := 0 to |lifetimes|
      invariant |places| == v
      invariant forall x :: 0 <= x < v && lifetimes[x].Some? ==> places[x] < |s| && s[places[x]] == lifetimes[x].value
    {
      if lifetimes[v].Some? {
        var i := IndexOf(lifetimes, s, v);
        places := places + [i];
      } else {
        places := places + [0];
      }
    }
  }

  lemma PlanPeak(p: Plan, s: seq<Lifetime>)
    requires Collected(p.lifetimes, s) && Labelled(p.lifetimes)
    requires (forall t: nat :: |LiveAt(s, t)| <= |p.capacities|) && exists t: nat :: |LiveAt(s, t)| == |p.capacities|
    ensures SlotsArePeak(p)
  {
    hide Collected, Labelled, LiveAt, LiveValues;
    forall t: nat ensures |LiveValues(p.lifetimes, t)| <= |p.capacities| {
      LiveSame(p.lifetimes, s, t);
    }
    var t: nat :| |LiveAt(s, t)| == |p.capacities|;
    LiveSame(p.lifetimes, s, t);
  }

  lemma LifetimesShape(g: Graph, order: seq<nat>, lifetimes: seq<Option<Lifetime>>)
    requires LifetimesOk(g, order, lifetimes)
    ensures Labelled(lifetimes) && Proper'(lifetimes)
  {
    forall v | 0 <= v < |lifetimes| && lifetimes[v].Some?
      ensures lifetimes[v].value.value == v && lifetimes[v].value.first <= lifetimes[v].value.last
    {
      assert IsLifetime(g, order, v, lifetimes[v].value);
    }
  }

  datatype PlanResult = Planned(plan: Plan) | Refused(error: OrderResult)

  /** The memory plan of a graph; refused exactly when the graph is malformed or cyclic. */
  method BuildPlan(g: Graph, alignment: nat) returns (r: PlanResult)
    requires alignment > 0
    ensures r.Planned? <==> Consistent(g) && !Cyclic(g)
    ensures r.Planned? ==> PlanOk(g, r.plan) && AlignedTo(r.plan, alignment)
    ensures r.Planned? ==> forall c :: 0 <= c < |r.plan.capacities| ==> Filled(r.plan, c)
  {
    hide Consistent, Cyclic, LifetimesOk, ReleasesOk, Collected, Labelled, Proper, Proper', Separate, LiveAt, OffsetsOk, AllocationsOk,
         InBounds, Apart, AlignedTo, Filled, SomeoneFills, Tight, SlotsArePeak, NaiveBytes, Sum, StrictlySorted;
    var ordered := TopologicalOrder(g);
    if !ordered.Order? {
      OrderedOrCyclic(g, ordered);
      return Refused(ordered);
    }
    var order := ordered.order;
    OrderLength(g, order);
    var lifetimes := Lifetimes(g, order);
    LifetimesShape(g, order, lifetimes);
    var releases := Releases(lifetimes, |order|);
    var unsorted := Collect(lifetimes);
    Distinct(lifetimes, unsorted);
    var s := SortIntervals(unsorted);
    SortedCollected(lifetimes, unsorted, s);
    SumPermutation(unsorted, s);
    var slots, capacities := AssignSlots(s);
    SlotsInRange(s, slots, capacities);
    var offsets, total := SlotOffsets(capacities, alignment);
    var allocations := Allocate(lifetimes, s, slots, offsets);
    var plan := Plan(order, lifetimes, releases, allocations, capacities, total);
    PlanInBounds(plan, s, slots, offsets, alignment);
    PlanAligned(plan, s, slots, offsets, alignment);
    PlanFilled(plan, s, slots, offsets);
    SameLength(plan);
    PlanApart(plan, s, slots, offsets, alignment);
    PlanPeak(plan, s);
    return Planned(plan);
  }

  lemma OrderedOrCyclic(g: Graph, r: OrderResult)
    requires !r.Order? && (r.Malformed? <==> !Consistent(g)) && (r.HasCycle? <==> Consistent(g) && Cyclic(g))
    ensures !(Consistent(g) && !Cyclic(g))
  {
  }

  lemma OrderLength(g: Graph, order: seq<nat>)
    requires IsOrder(g, order)
    ensures |order| == |g.nodes|
  {
    InRange(g, order);
    FewDistinct(order, |g.nodes|);
  }

  lemma Distinct(lifetimes: seq<Option<Lifetime>>, s: seq<Lifetime>)
    requires Collected(lifetimes, s)
    ensures forall i, j :: 0 <= i < j < |s| ==> s[i].value != s[j].value
  {
  }

  lemma SlotsInRange(s: seq<Lifetime>, slots: seq<nat>, capacities: seq<nat>)
    requires |slots| == |s| && Separate(s, slots, capacities)
    ensures forall i :: 0 <= i < |slots| ==> slots[i] < |capacities|
  {
  }

  lemma SameLength(p: Plan)
    requires InBounds(p)
    ensures |p.allocations| == |p.lifetimes|
  {
  }
}
