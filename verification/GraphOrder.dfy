/** Graph::topological_order (src/graph/graph.cpp): Kahn's algorithm, smallest ready node first. */
module GraphOrder {
  import opened Prelude

  datatype ValueKind = Input | Constant | Intermediate
  datatype GraphValue = GraphValue(kind: ValueKind, producer: Option<nat>, bytes: nat)
  datatype Node = Node(inputs: seq<nat>, outputs: seq<nat>)
  /** `constants` has an entry per value: the tensor of a constant. */
  datatype Graph = Graph(nodes: seq<Node>, values: seq<GraphValue>, constants: seq<Option<seq<int>>>, inputs: seq<nat>, outputs: seq<nat>)

  /** The metadata a value of its kind must have. */
  predicate KindOk(g: Graph, v: nat, registered: bool)
    requires v < |g.values| && v < |g.constants|
  {
    match g.values[v].kind
    case Input => registered && g.values[v].producer.None? && g.constants[v].None?
    case Constant => !registered && g.values[v].producer.None? && g.constants[v].Some? && |g.constants[v].value| == g.values[v].bytes
    case Intermediate => !registered && g.values[v].producer.Some? && g.constants[v].None? && g.values[v].producer.value < |g.nodes|
  }

  ghost predicate ValueOk(g: Graph, v: nat)
    requires v < |g.values| == |g.constants|
  {
    && KindOk(g, v, v in g.inputs)
    && (g.values[v].producer.Some? ==> v in g.nodes[g.values[v].producer.value].outputs)
  }

  ghost predicate NodeOk(g: Graph, n: nat)
    requires n < |g.nodes|
  {
    var node := g.nodes[n];
    && node.outputs != []
    && (forall i :: 0 <= i < |node.inputs| ==> node.inputs[i] < |g.values|)
    && (forall i :: 0 <= i < |node.outputs| ==> node.outputs[i] < |g.values| && g.values[node.outputs[i]].producer == Some(n))
    && (forall i, j :: 0 <= i < j < |node.outputs| ==> node.outputs[i] != node.outputs[j])
  }

  /** Ids in range, none twice. */
  ghost predicate Registers(ids: seq<nat>, n: nat) {
    (forall i :: 0 <= i < |ids| ==> ids[i] < n) && forall i, j :: 0 <= i < j < |ids| ==> ids[i] != ids[j]
  }

  /** The tables agree: every intermediate value has exactly one producer, and every id is in range. */
  ghost predicate Consistent(g: Graph) {
    && |g.constants| == |g.values| && g.outputs != []
    && Registers(g.inputs, |g.values|) && Registers(g.outputs, |g.values|)
    && (forall v :: 0 <= v < |g.values| ==> ValueOk(g, v))
    && (forall n :: 0 <= n < |g.nodes| ==> NodeOk(g, n))
  }

  /** The producers of a node's inputs. */
  function Dependencies(g: Graph, n: nat): set<nat>
    requires n < |g.nodes|
  {
    set v | v in g.nodes[n].inputs && v < |g.values| && g.values[v].producer.Some? :: g.values[v].producer.value
  }

  lemma DependencyInRange(g: Graph, n: nat, d: nat)
    requires Consistent(g) && n < |g.nodes| && d in Dependencies(g, n)
    ensures d < |g.nodes|
  {
    var v :| v in g.nodes[n].inputs && v < |g.values| && g.values[v].producer == Some(d);
    assert ValueOk(g, v);
  }

  // ---- Scanning the tables ----

  /** Which ids are listed; None for an id out of range or listed twice. */
  method Register(ids: seq<nat>, n: nat) returns (r: Option<seq<bool>>)
    ensures r.Some? <==> Registers(ids, n)
    ensures r.Some? ==> |r.value| == n && forall v :: 0 <= v < n ==> (r.value[v] <==> v in ids)
  {
    var listed := seq(n, _ => false);
    for i := 0 to |ids|
      invariant |listed| == n && Registers(ids[..i], n) && forall v :: 0 <= v < n ==> (listed[v] <==> v in ids[..i])
    {
      assert ids[..i + 1] == ids[..i] + [ids[i]];
      if ids[i] >= n {
        return None;
      }
      if listed[ids[i]] {
        var j :| 0 <= j < i && ids[..i][j] == ids[i];
        assert ids[j] == ids[i];
        return None;
      }
      listed := listed[ids[i] := true];
    }
    assert ids[..|ids|] == ids;
    return Some(listed);
  }

  ghost predicate ProducedBy(g: Graph, n: nat, v: nat) {
    exists x :: 0 <= x < n && x < |g.nodes| && v in g.nodes[x].outputs
  }

  ghost predicate ProducedUpTo(g: Graph, produced: seq<bool>, n: nat) {
    |produced| == |g.values| && forall v :: 0 <= v < |produced| ==> (produced[v] <==> ProducedBy(g, n, v))
  }

  /** The scan of one node: its ids are in range, and each output is new and names this node as its producer. */
  method ScanNode(g: Graph, n: nat, produced: seq<bool>) returns (r: Option<seq<bool>>)
    requires n < |g.nodes| && ProducedUpTo(g, produced, n) && |g.constants| == |g.values|
    requires (forall x :: 0 <= x < n ==> NodeOk(g, x)) && forall v :: 0 <= v < |g.values| ==> KindOk(g, v, v in g.inputs)
    ensures r.Some? <==> NodeOk(g, n)
    ensures r.Some? ==> ProducedUpTo(g, r.value, n + 1)
  {
    hide KindOk, ProducedBy;
    var node := g.nodes[n];
    if node.outputs == [] {
      return None;
    }
    for i := 0 to |node.inputs|
      invariant forall x :: 0 <= x < i ==> node.inputs[x] < |g.values|
    {
      if node.inputs[i] >= |g.values| {
        return None;
      }
    }
    var marks := produced;
    for i := 0 to |node.outputs|
      invariant |marks| == |g.values| && forall v :: 0 <= v < |marks| ==> (marks[v] <==> produced[v] || v in node.outputs[..i])
      invariant forall x :: 0 <= x < i ==> node.outputs[x] < |g.values| && g.values[node.outputs[x]].producer == Some(n)
      invariant forall x, y :: 0 <= x < y < i ==> node.outputs[x] != node.outputs[y]
    {
      var o := node.outputs[i];
      assert node.outputs[..i + 1] == node.outputs[..i] + [o];
      if o >= |g.values| {
        return None;
      }
      if marks[o] {
        AlreadyProduced(g, n, i, produced);
        return None;
      }
      marks := marks[o := true];
      if g.values[o].kind != Intermediate || g.values[o].producer != Some(n) {
        NotItsProducer(g, o);
        return None;
      }
    }
    assert node.outputs[..|node.outputs|] == node.outputs;
    OneMoreNode(g, produced, marks, n);
    return Some(marks);
  }

  lemma AlreadyProduced(g: Graph, n: nat, i: nat, produced: seq<bool>)
    requires n < |g.nodes| && ProducedUpTo(g, produced, n) && (forall x :: 0 <= x < n ==> NodeOk(g, x))
    requires i < |g.nodes[n].outputs| && g.nodes[n].outputs[i] < |g.values|
    requires produced[g.nodes[n].outputs[i]] || g.nodes[n].outputs[i] in g.nodes[n].outputs[..i]
    ensures !NodeOk(g, n)
  {
    var o := g.nodes[n].outputs[i];
    if produced[o] {
      var x :| 0 <= x < n && o in g.nodes[x].outputs;
      assert NodeOk(g, x);
    }
  }

  lemma NotItsProducer(g: Graph, o: nat)
    requires o < |g.values| == |g.constants| && KindOk(g, o, o in g.inputs)
    ensures g.values[o].producer.Some? ==> g.values[o].kind == Intermediate
  {
  }

  lemma OneMoreNode(g: Graph, produced: seq<bool>, marks: seq<bool>, n: nat)
    requires n < |g.nodes| && ProducedUpTo(g, produced, n) && |marks| == |produced|
    requires forall v :: 0 <= v < |marks| ==> (marks[v] <==> produced[v] || v in g.nodes[n].outputs)
    ensures ProducedUpTo(g, marks, n + 1)
  {
    forall v | 0 <= v < |marks| ensures marks[v] <==> ProducedBy(g, n + 1, v) {
      if produced[v] {
        var x :| 0 <= x < n && v in g.nodes[x].outputs;
      }
    }
  }

  /** The checks before the order is computed accept exactly consistent tables. */
  method Validate(g: Graph) returns (ok: bool)
    ensures ok <==> Consistent(g)
  {
    hide NodeOk, KindOk, ProducedBy, Registers;
    if |g.constants| != |g.values| || g.outputs == [] {
      return false;
    }
    var inputs := Register(g.inputs, |g.values|);
    var outputs := Register(g.outputs, |g.values|);
    if inputs.None? || outputs.None? {
      return false;
    }
    for v := 0 to |g.values|
      invariant forall x :: 0 <= x < v ==> KindOk(g, x, x in g.inputs)
    {
      if !KindOk(g, v, inputs.value[v]) {
        assert !ValueOk(g, v);
        return false;
      }
    }
    var produced: seq<bool> := seq(|g.values|, _ => false);
    NothingProduced(g, produced);
    for n := 0 to |g.nodes|
      invariant ProducedUpTo(g, produced, n) && forall x :: 0 <= x < n ==> NodeOk(g, x)
    {
      var next := ScanNode(g, n, produced);
      if next.None? {
        return false;
      }
      produced := next.value;
    }
    for v := 0 to |g.values|
      invariant forall x :: 0 <= x < v ==> ValueOk(g, x)
    {
      ProducerScan(g, produced, v);
      if g.values[v].kind == Intermediate && !produced[v] {
        return false;
      }
    }
    ok := true;
  }

  lemma NothingProduced(g: Graph, produced: seq<bool>)
    requires |produced| == |g.values| && forall v :: 0 <= v < |produced| ==> !produced[v]
    ensures ProducedUpTo(g, produced, 0)
  {
  }

  /** After the scan of all nodes the marks say whether a value appears where its producer says. */
  lemma ProducerScan(g: Graph, produced: seq<bool>, v: nat)
    requires v < |g.values| == |g.constants| && ProducedUpTo(g, produced, |g.nodes|) && KindOk(g, v, v in g.inputs)
    requires forall x :: 0 <= x < |g.nodes| ==> NodeOk(g, x)
    ensures ValueOk(g, v) <==> g.values[v].kind != Intermediate || produced[v]
  {
    if produced[v] {
      var x :| 0 <= x < |g.nodes| && v in g.nodes[x].outputs;
      assert NodeOk(g, x);
    }
  }

  // ---- Orders and cycles ----

  /** A walk along dependencies. */
  ghost predicate IsWalk(g: Graph, c: seq<nat>) {
    && c != [] && (forall i :: 0 <= i < |c| ==> c[i] < |g.nodes|)
    && (forall i :: 0 < i < |c| ==> c[i] in Dependencies(g, c[i - 1]))
  }

  /** A walk that comes back to its start. */
  ghost predicate IsCycle(g: Graph, c: seq<nat>) {
    IsWalk(g, c) && c[0] in Dependencies(g, c[|c| - 1])
  }

  ghost predicate Cyclic(g: Graph) {
    exists c: seq<nat> :: IsCycle(g, c)
  }

  /** A node whose dependencies all come before. */
  ghost predicate Ready(g: Graph, done: set<nat>, n: nat) {
    n < |g.nodes| && n !in done && Dependencies(g, n) <= done
  }

  /** Every node once, after its dependencies, and always the smallest ready one. */
  ghost predicate IsOrder(g: Graph, order: seq<nat>) {
    && (forall n :: 0 <= n < |g.nodes| ==> n in order)
    && IsPartialOrder(g, order)
  }

  ghost predicate IsPartialOrder(g: Graph, order: seq<nat>) {
    NoDuplicates(order) && forall k :: 0 <= k < |order| ==> ChosenAt(g, order, k)
  }

  ghost predicate ChosenAt(g: Graph, order: seq<nat>, k: nat)
    requires k < |order|
  {
    var done := Elements(order[..k]);
    Ready(g, done, order[k]) && forall n :: Ready(g, done, n) ==> order[k] <= n
  }

  // ---- An order excludes cycles ----

  lemma DependencyEarlier(g: Graph, order: seq<nat>, k: nat, d: nat) returns (j: nat)
    requires IsPartialOrder(g, order) && k < |order| && order[k] < |g.nodes| && d in Dependencies(g, order[k])
    ensures j < k && order[j] == d
  {
    assert ChosenAt(g, order, k);
    assert d in Elements(order[..k]);
    j :| 0 <= j < k && order[..k][j] == d;
  }

  lemma DependencyBefore(g: Graph, order: seq<nat>, k: nat, p: nat)
    requires IsPartialOrder(g, order) && k < |order| && order[k] < |g.nodes| && p < |order|
    ensures order[p] in Dependencies(g, order[k]) ==> p < k
  {
    if order[p] in Dependencies(g, order[k]) {
      var j := DependencyEarlier(g, order, k, order[p]);
    }
  }

  /** Along dependencies positions only go down. */
  lemma {:induction false} WalkDescends(g: Graph, order: seq<nat>, c: seq<nat>, i: nat) returns (first: nat, here: nat)
    requires IsOrder(g, order) && IsWalk(g, c) && i < |c|
    ensures here <= first < |order| && order[first] == c[0] && order[here] == c[i]
    decreases i
  {
    if i == 0 {
      assert c[0] in order;
      first :| 0 <= first < |order| && order[first] == c[0];
      here := first;
    } else {
      var before;
      first, before := WalkDescends(g, order, c, i - 1);
      here := DependencyEarlier(g, order, before, c[i]);
    }
  }

  /** With an order no walk closes. */
  lemma OrderExcludesCycle(g: Graph, order: seq<nat>, c: seq<nat>)
    requires IsOrder(g, order) && IsWalk(g, c)
    ensures c[0] !in Dependencies(g, c[|c| - 1])
  {
    var first, last := WalkDescends(g, order, c, |c| - 1);
    DependencyBefore(g, order, last, first);
  }

  // ---- Without a ready node there is a cycle ----

  /** Nodes left over with none of them ready. */
  ghost predicate Stuck(g: Graph, done: set<nat>) {
    forall n :: 0 <= n < |g.nodes| && n !in done ==> !(Dependencies(g, n) <= done)
  }

  lemma {:induction false} Walk(g: Graph, done: set<nat>, n: nat, length: nat) returns (w: seq<nat>)
    requires Consistent(g) && Stuck(g, done) && n < |g.nodes| && n !in done
    ensures |w| == length + 1 && w[0] == n
    ensures forall i :: 0 <= i < |w| ==> w[i] < |g.nodes|
    ensures forall i :: 0 < i < |w| ==> w[i] in Dependencies(g, w[i - 1])
    decreases length
  {
    if length == 0 {
      w := [n];
    } else {
      var d :| d in Dependencies(g, n) && d !in done;
      DependencyInRange(g, n, d);
      var rest := Walk(g, done, d, length - 1);
      w := [n] + rest;
      forall i | 0 < i < |w| ensures w[i] in Dependencies(g, w[i - 1]) {
        if i > 1 {
          assert w[i] == rest[i - 1] && w[i - 1] == rest[i - 2];
        }
      }
    }
  }

  lemma StuckHasCycle(g: Graph, done: set<nat>, n: nat)
    requires Consistent(g) && Stuck(g, done) && n < |g.nodes| && n !in done
    ensures Cyclic(g)
  {
    var w := Walk(g, done, n, |g.nodes|);
    if NoDuplicates(w) {
      FewDistinct(w, |g.nodes|);
    }
    var i, j :| 0 <= i < j < |w| && w[i] == w[j];
    var c := w[i..j];
    assert c[0] == w[j] && c[|c| - 1] == w[j - 1];
    forall k | 0 < k < |c| ensures c[k] in Dependencies(g, c[k - 1]) {
      assert c[k] == w[i + k] && c[k - 1] == w[i + k - 1];
    }
    assert IsCycle(g, c);
  }

  // ---- The algorithm ----

  lemma OrderedAcyclic(g: Graph, order: seq<nat>)
    requires IsOrder(g, order)
    ensures !Cyclic(g)
  {
    hide Dependencies, IsOrder;
    forall c: seq<nat> ensures !IsCycle(g, c) {
      if IsWalk(g, c) {
        OrderExcludesCycle(g, order, c);
      }
    }
  }

  /** Always taking the smallest ready node leaves no choice: a graph has at most one order. */
  lemma OrderUnique(g: Graph, a: seq<nat>, b: seq<nat>)
    requires IsOrder(g, a) && IsOrder(g, b) && |a| == |b|
    ensures a == b
  {
    hide IsOrder;
    SameFront(g, a, b, |a|);
    assert a[..|a|] == a && b[..|a|] == b;
  }

  lemma {:induction false} SameFront(g: Graph, a: seq<nat>, b: seq<nat>, k: nat)
    requires IsOrder(g, a) && IsOrder(g, b) && k <= |a| == |b|
    ensures a[..k] == b[..k]
    decreases k
  {
    hide Dependencies, Ready;
    if k > 0 {
      SameFront(g, a, b, k - 1);
      assert ChosenAt(g, a, k - 1) && ChosenAt(g, b, k - 1);
      assert a[..k] == a[..k - 1] + [a[k - 1]] && b[..k] == b[..k - 1] + [b[k - 1]];
    }
  }

  const NoNodes: set<nat> := {}

  datatype OrderResult = Order(order: seq<nat>) | Malformed | HasCycle

  /** Exactly the nodes below `n` that depend on `d`, once each. */
  ghost predicate Lists(g: Graph, list: seq<nat>, d: nat, n: nat) {
    NoDuplicates(list) && forall c: nat :: c in list <==> c < n && c < |g.nodes| && d in Dependencies(g, c)
  }

  ghost predicate ConsumersUpTo(g: Graph, consumers: seq<seq<nat>>, n: nat) {
    |consumers| == |g.nodes| && forall d :: 0 <= d < |consumers| ==> Lists(g, consumers[d], d, n)
  }

  method Consumers(g: Graph) returns (consumers: seq<seq<nat>>)
    requires Consistent(g)
    ensures ConsumersUpTo(g, consumers, |g.nodes|)
  {
    consumers := seq(|g.nodes|, _ => []);
    for id := 0 to |g.nodes|
      invariant ConsumersUpTo(g, consumers, id)
    {
      var rest := Dependencies(g, id);
      ghost var before := consumers;
      while rest != {}
        invariant rest <= Dependencies(g, id) && |consumers| == |before|
        invariant forall d :: 0 <= d < |before| ==>
          consumers[d] == if d in Dependencies(g, id) && d !in rest then before[d] + [id] else before[d]
        decreases |rest|
      {
        var d :| d in rest;
        DependencyInRange(g, id, d);
        consumers := consumers[d := consumers[d] + [id]];
        rest := rest - {d};
      }
      ConsumersStep(g, before, consumers, id);
    }
  }

  lemma ConsumersStep(g: Graph, before: seq<seq<nat>>, after: seq<seq<nat>>, id: nat)
    requires ConsumersUpTo(g, before, id) && id < |g.nodes| && |after| == |before|
    requires forall d :: 0 <= d < |before| ==> after[d] == if d in Dependencies(g, id) then before[d] + [id] else before[d]
    ensures ConsumersUpTo(g, after, id + 1)
  {
    hide Dependencies;
    forall d | 0 <= d < |after| ensures Lists(g, after[d], d, id + 1) {
      assert Lists(g, before[d], d, id);
      ListsStep(g, before[d], d, id);
    }
  }

  lemma ListsStep(g: Graph, list: seq<nat>, d: nat, id: nat)
    requires Lists(g, list, d, id) && id < |g.nodes|
    ensures Lists(g, if d in Dependencies(g, id) then list + [id] else list, d, id + 1)
  {
    hide Dependencies;
    assert id !in list;
  }

  method Smallest(s: set<nat>) returns (m: nat)
    requires s != {}
    ensures m in s && forall x :: x in s ==> m <= x
  {
    m :| m in s;
    var rest := s - {m};
    while rest != {}
      invariant m in s && rest <= s && forall x :: x in s && x !in rest ==> m <= x
      decreases |rest|
    {
      var x :| x in rest;
      if x < m {
        m := x;
      }
      rest := rest - {x};
    }
  }

  /** Unfinished dependencies of a node. */
  ghost function Open(g: Graph, done: set<nat>, n: nat): nat
    requires n < |g.nodes|
  {
    |Dependencies(g, n) - done|
  }

  ghost predicate Counted(g: Graph, indegree: seq<nat>, done: set<nat>) {
    |indegree| == |g.nodes| && forall n :: 0 <= n < |indegree| ==> indegree[n] == Open(g, done, n)
  }

  ghost predicate ReadySet(g: Graph, done: set<nat>, ready: set<nat>) {
    forall n :: n in ready <==> Ready(g, done, n)
  }

  /** Nodes in index order, in dependency order, smallest ready node first, or the news that there is a cycle. */
  method TopologicalOrder(g: Graph) returns (r: OrderResult)
    ensures r.Malformed? <==> !Consistent(g)
    ensures r.Order? ==> IsOrder(g, r.order)
    ensures r.HasCycle? <==> Consistent(g) && Cyclic(g)
  {
    hide Consistent, Dependencies;
    var ok := Validate(g);
    if !ok {
      return Malformed;
    }
    var consumers := Consumers(g);
    var indegree: seq<nat> := seq(|g.nodes|, n requires 0 <= n < |g.nodes| => |Dependencies(g, n)|);
    var ready := set n: nat | 0 <= n < |g.nodes| && indegree[n] == 0;
    var order: seq<nat> := [];
    StartReady(g, indegree, ready);
    while ready != {}
      invariant IsPartialOrder(g, order) && Counted(g, indegree, Elements(order)) && ReadySet(g, Elements(order), ready)
      decreases |g.nodes| - |order|
    {
      hide Counted, ReadySet, IsPartialOrder, ConsumersUpTo;
      var id := Smallest(ready);
      PickStep(g, order, ready, id);
      indegree, ready := Settle(g, consumers, indegree, ready, Elements(order), id);
      ElementsSnoc(order, id);
      order := order + [id];
    }
    Finished(g, order);
    if |order| != |g.nodes| {
      return HasCycle;
    }
    return Order(order);
  }

  /** Counts down the consumers of a finished node. */
  method Settle(g: Graph, consumers: seq<seq<nat>>, indegree: seq<nat>, ready: set<nat>, ghost done: set<nat>, id: nat)
      returns (indegree': seq<nat>, ready': set<nat>)
    requires ConsumersUpTo(g, consumers, |g.nodes|) && Counted(g, indegree, done) && ReadySet(g, done, ready) && Ready(g, done, id)
    requires forall n :: n in done && n < |g.nodes| ==> Dependencies(g, n) <= done
    ensures Counted(g, indegree', done + {id}) && ReadySet(g, done + {id}, ready')
  {
    hide Dependencies;
    indegree', ready' := indegree, ready - {id};
    var list := consumers[id];
    assert Lists(g, list, id, |g.nodes|);
    for k := 0 to |list|
      invariant |indegree'| == |indegree|
      invariant forall n :: 0 <= n < |indegree| ==> indegree'[n] + (if n in list[..k] then 1 else 0) == indegree[n]
      invariant forall n :: n in ready' <==> (n in ready && n != id) || (n in list[..k] && n < |indegree| && indegree[n] == 1)
    {
      var c := list[k];
      ConsumerOpen(g, consumers, indegree, done, id, c);
      assert c !in list[..k];
      assert list[..k + 1] == list[..k] + [c];
      indegree' := indegree'[c := indegree'[c] - 1];
      if indegree'[c] == 0 {
        ready' := ready' + {c};
      }
    }
    assert list[..|list|] == list;
    SettleOk(g, consumers, indegree, ready, indegree', ready', done, id);
  }

  lemma ConsumerOpen(g: Graph, consumers: seq<seq<nat>>, indegree: seq<nat>, done: set<nat>, id: nat, c: nat)
    requires ConsumersUpTo(g, consumers, |g.nodes|) && Counted(g, indegree, done) && id < |g.nodes| && id !in done && c in consumers[id]
    ensures c < |g.nodes| && indegree[c] > 0
  {
    hide Dependencies;
    assert Lists(g, consumers[id], id, |g.nodes|);
    assert id in Dependencies(g, c) - done;
  }

  lemma SettleOk(g: Graph, consumers: seq<seq<nat>>, indegree: seq<nat>, ready: set<nat>, indegree': seq<nat>, ready': set<nat>, done: set<nat>, id: nat)
    requires ConsumersUpTo(g, consumers, |g.nodes|) && Counted(g, indegree, done) && ReadySet(g, done, ready) && Ready(g, done, id)
    requires forall n :: n in done && n < |g.nodes| ==> Dependencies(g, n) <= done
    requires |indegree'| == |indegree| && forall n :: 0 <= n < |indegree| ==> indegree'[n] + (if n in consumers[id] then 1 else 0) == indegree[n]
    requires forall n :: n in ready' <==> (n in ready && n != id) || (n in consumers[id] && n < |indegree| && indegree[n] == 1)
    ensures Counted(g, indegree', done + {id}) && ReadySet(g, done + {id}, ready')
  {
    hide Dependencies;
    forall n | 0 <= n < |g.nodes|
      ensures indegree'[n] == Open(g, done + {id}, n) && (n in ready' <==> Ready(g, done + {id}, n))
    {
      assert Lists(g, consumers[id], id, |g.nodes|);
      assert n in consumers[id] <==> id in Dependencies(g, n);
      OpenStep(g, done, id, n);
    }
    forall n | n in ready' ensures n < |g.nodes| {
    }
  }

  lemma OpenStep(g: Graph, done: set<nat>, id: nat, n: nat)
    requires n < |g.nodes| && id !in done && Ready(g, done, id)
    requires n in done ==> Dependencies(g, n) <= done
    ensures Open(g, done + {id}, n) == if id in Dependencies(g, n) then Open(g, done, n) - 1 else Open(g, done, n)
    ensures Ready(g, done + {id}, n) <==> (Ready(g, done, n) && n != id) || (id in Dependencies(g, n) && Open(g, done, n) == 1)
  {
    hide Dependencies;
    var deps := Dependencies(g, n);
    if id in deps {
      assert deps - done == (deps - (done + {id})) + {id};
      assert deps <= done + {id} <==> deps - (done + {id}) == {};
    } else {
      assert deps - done == deps - (done + {id});
    }
  }

  lemma StartReady(g: Graph, indegree: seq<nat>, ready: set<nat>)
    requires |indegree| == |g.nodes| && forall n :: 0 <= n < |indegree| ==> indegree[n] == |Dependencies(g, n)|
    requires ready == set n: nat | 0 <= n < |g.nodes| && indegree[n] == 0
    ensures IsPartialOrder(g, []) && Counted(g, indegree, Elements([])) && ReadySet(g, Elements([]), ready)
  {
    hide Dependencies;
    assert Elements<nat>([]) == {};
    forall n | 0 <= n < |g.nodes| ensures Dependencies(g, n) - {} == Dependencies(g, n) {
    }
  }

  lemma ElementsSnoc(order: seq<nat>, id: nat)
    ensures Elements(order + [id]) == Elements(order) + {id}
  {
  }

  lemma PickStep(g: Graph, order: seq<nat>, ready: set<nat>, id: nat)
    requires IsPartialOrder(g, order) && ReadySet(g, Elements(order), ready) && id in ready && forall x :: x in ready ==> id <= x
    ensures IsPartialOrder(g, order + [id]) && Ready(g, Elements(order), id) && |order| < |g.nodes|
    ensures forall n :: n in Elements(order) && n < |g.nodes| ==> Dependencies(g, n) <= Elements(order)
  {
    hide Dependencies;
    var t := order + [id];
    forall k | 0 <= k < |t| ensures ChosenAt(g, t, k) {
      if k < |order| {
        assert ChosenAt(g, order, k);
        assert t[..k] == order[..k];
      } else {
        assert t[..k] == order;
      }
    }
    forall n | n in Elements(order) && n < |g.nodes| ensures Dependencies(g, n) <= Elements(order) {
      var k :| 0 <= k < |order| && order[k] == n;
      assert ChosenAt(g, order, k);
      assert Elements(order[..k]) <= Elements(order);
    }
    assert id !in order;
    InRange(g, t);
    FewDistinct(t, |g.nodes|);
  }

  lemma InRange(g: Graph, order: seq<nat>)
    requires IsPartialOrder(g, order)
    ensures forall k :: 0 <= k < |order| ==> order[k] < |g.nodes|
  {
    hide Dependencies;
    forall k | 0 <= k < |order| ensures order[k] < |g.nodes| {
      assert ChosenAt(g, order, k);
    }
  }

  lemma Finished(g: Graph, order: seq<nat>)
    requires Consistent(g) && IsPartialOrder(g, order) && ReadySet(g, Elements(order), NoNodes)
    ensures |order| == |g.nodes| <==> IsOrder(g, order)
    ensures |order| == |g.nodes| <==> !Cyclic(g)
  {
    hide Consistent, Dependencies, ChosenAt;
    InRange(g, order);
    FewDistinct(order, |g.nodes|);
    if |order| == |g.nodes| {
      forall c: seq<nat> ensures !IsCycle(g, c) {
        if IsWalk(g, c) {
          OrderExcludesCycle(g, order, c);
        }
      }
    } else {
      var n :| 0 <= n < |g.nodes| && n !in order;
      forall x | 0 <= x < |g.nodes| && x !in Elements(order) ensures !(Dependencies(g, x) <= Elements(order)) {
        assert Ready(g, Elements(order), x) <==> x in NoNodes;
      }
      StuckHasCycle(g, Elements(order), n);
    }
  }
}
