/** The meaning of a graph: one tensor per value, tied together by the dataflow equations of its nodes. Executing the nodes
    in order with nothing shared solves the equations, and they have only one solution. */
module GraphDataflow {
  import opened Prelude
  import opened GraphOrder

  type Tensor = seq<int>

  /** What each node computes from its input tensors. */
  datatype Kernels = Kernels(run: (nat, seq<Tensor>) -> seq<Tensor>)

  /** Every kernel writes each of its outputs completely. */
  ghost predicate WritesAll(g: Graph, kernels: Kernels) {
    forall n, xs: seq<Tensor> :: 0 <= n < |g.nodes| ==> OutputShape(g, n, kernels.run(n, xs))
  }

  predicate OutputShape(g: Graph, n: nat, ys: seq<Tensor>)
    requires n < |g.nodes|
  {
    var outputs := g.nodes[n].outputs;
    |ys| == |outputs| && forall i :: 0 <= i < |outputs| ==> outputs[i] < |g.values| && |ys[i]| == g.values[outputs[i]].bytes
  }

  // ---- One tensor per value ----

  function Fetch(env: map<nat, Tensor>, v: nat): Tensor {
    if v in env then env[v] else []
  }

  function FetchAll(env: map<nat, Tensor>, vs: seq<nat>): (r: seq<Tensor>)
    ensures |r| == |vs|
  {
    seq(|vs|, i requires 0 <= i < |vs| => Fetch(env, vs[i]))
  }

  function Bind(env: map<nat, Tensor>, vs: seq<nat>, ys: seq<Tensor>): map<nat, Tensor>
    decreases |vs|
  {
    if vs == [] || ys == [] then env else Bind(env[vs[0] := ys[0]], vs[1..], ys[1..])
  }

  /** The tensors after `k` steps when nothing is shared or released. */
  function Naive(g: Graph, kernels: Kernels, given: map<nat, Tensor>, order: seq<nat>, k: nat): map<nat, Tensor>
    requires k <= |order|
  {
    if k == 0 then given
    else
      var env := Naive(g, kernels, given, order, k - 1);
      var n := order[k - 1];
      if n < |g.nodes| then Bind(env, g.nodes[n].outputs, kernels.run(n, FetchAll(env, g.nodes[n].inputs))) else env
  }

  lemma {:induction false} BindOther(env: map<nat, Tensor>, vs: seq<nat>, ys: seq<Tensor>, v: nat)
    requires v !in vs
    ensures Fetch(Bind(env, vs, ys), v) == Fetch(env, v)
    decreases |vs|
  {
    if vs != [] && ys != [] {
      BindOther(env[vs[0] := ys[0]], vs[1..], ys[1..], v);
    }
  }

  lemma {:induction false} BindAt(env: map<nat, Tensor>, vs: seq<nat>, ys: seq<Tensor>, i: nat)
    requires i < |vs| == |ys| && forall a, b :: 0 <= a < b < |vs| ==> vs[a] != vs[b]
    ensures Fetch(Bind(env, vs, ys), vs[i]) == ys[i]
    decreases |vs|
  {
    if i == 0 {
      assert vs[0] !in vs[1..];
      BindOther(env[vs[0] := ys[0]], vs[1..], ys[1..], vs[0]);
    } else {
      BindAt(env[vs[0] := ys[0]], vs[1..], ys[1..], i - 1);
    }
  }

  // ---- The dataflow equations ----

  /** Node `n`: each output is what its kernel computes from the tensors of its inputs, in their order. */
  ghost predicate NodeComputes(g: Graph, kernels: Kernels, env: map<nat, Tensor>, n: nat)
    requires n < |g.nodes|
  {
    var node := g.nodes[n];
    && (forall j :: 0 <= j < |node.inputs| ==> node.inputs[j] in env) && (forall i :: 0 <= i < |node.outputs| ==> node.outputs[i] in env)
    && forall xs: seq<Tensor> :: |xs| == |node.inputs| && (forall j :: 0 <= j < |xs| ==> xs[j] == env[node.inputs[j]]) ==>
         && |kernels.run(n, xs)| == |node.outputs|
         && forall i :: 0 <= i < |node.outputs| ==> env[node.outputs[i]] == kernels.run(n, xs)[i]
  }

  ghost predicate Computes(g: Graph, kernels: Kernels, env: map<nat, Tensor>) {
    forall n :: 0 <= n < |g.nodes| ==> NodeComputes(g, kernels, env, n)
  }

  /** Nodes with different numbers have different outputs, and only intermediate values are outputs. */
  lemma OwnOutputs(g: Graph, n: nat, v: nat)
    requires Consistent(g) && n < |g.nodes| && v in g.nodes[n].outputs
    ensures v < |g.values| && g.values[v].producer == Some(n) && g.values[v].kind == Intermediate
  {
    assert NodeOk(g, n) && ValueOk(g, v);
  }

  /** A value keeps its tensor through steps that do not produce it. */
  lemma {:induction false} NaiveKeeps(g: Graph, kernels: Kernels, given: map<nat, Tensor>, order: seq<nat>, k: nat, m: nat, v: nat)
    requires k <= m <= |order| && forall x :: k <= x < m ==> order[x] < |g.nodes| && v !in g.nodes[order[x]].outputs
    ensures Fetch(Naive(g, kernels, given, order, m), v) == Fetch(Naive(g, kernels, given, order, k), v)
    ensures v in Naive(g, kernels, given, order, k) ==> v in Naive(g, kernels, given, order, m)
    decreases m
  {
    if k < m {
      NaiveKeeps(g, kernels, given, order, k, m - 1, v);
      var env, n := Naive(g, kernels, given, order, m - 1), order[m - 1];
      BindOther(env, g.nodes[n].outputs, kernels.run(n, FetchAll(env, g.nodes[n].inputs)), v);
      BindGrows(env, g.nodes[n].outputs, kernels.run(n, FetchAll(env, g.nodes[n].inputs)));
    }
  }

  lemma {:induction false} BindGrows(env: map<nat, Tensor>, vs: seq<nat>, ys: seq<Tensor>)
    ensures env.Keys <= Bind(env, vs, ys).Keys && (|vs| == |ys| ==> forall i :: 0 <= i < |vs| ==> vs[i] in Bind(env, vs, ys))
    decreases |vs|
  {
    if vs != [] && ys != [] {
      BindGrows(env[vs[0] := ys[0]], vs[1..], ys[1..]);
      assert forall i :: 0 < i < |vs| ==> vs[i] == vs[1..][i - 1];
    }
  }

  /** A given value is never overwritten; an intermediate one is settled right after the step of its producer. */
  lemma SettledAfter(g: Graph, kernels: Kernels, given: map<nat, Tensor>, order: seq<nat>, k: nat, v: nat)
    requires Consistent(g) && IsOrder(g, order) && |order| == |g.nodes| && k <= |order| && v < |g.values|
    requires forall x :: k <= x < |order| ==> g.values[v].producer != Some(order[x])
    ensures Fetch(Naive(g, kernels, given, order, |order|), v) == Fetch(Naive(g, kernels, given, order, k), v)
    ensures v in Naive(g, kernels, given, order, k) ==> v in Naive(g, kernels, given, order, |order|)
  {
    InRange(g, order);
    hide IsOrder, Consistent;
    forall x | k <= x < |order| ensures v !in g.nodes[order[x]].outputs {
      if v in g.nodes[order[x]].outputs {
        OwnOutputs(g, order[x], v);
        assert false;
      }
    }
    NaiveKeeps(g, kernels, given, order, k, |order|, v);
  }

  /** An input of step `k` was given or is the output of an earlier step. */
  lemma InputEarlier(g: Graph, order: seq<nat>, k: nat, v: nat)
    requires Consistent(g) && IsOrder(g, order) && |order| == |g.nodes| && k < |order| && order[k] < |g.nodes| && v in g.nodes[order[k]].inputs
    ensures v < |g.values| && forall x :: k <= x < |order| ==> g.values[v].producer != Some(order[x])
  {
    assert NodeOk(g, order[k]);
    forall x | k <= x < |order| ensures g.values[v].producer != Some(order[x]) {
      if g.values[v].producer == Some(order[x]) {
        assert order[x] in Dependencies(g, order[k]);
        DependencyBefore(g, order, k, x);
        assert false;
      }
    }
  }

  /** Naive execution solves the dataflow equations, with every given tensor in its place. */
  lemma NaiveComputes(g: Graph, kernels: Kernels, given: map<nat, Tensor>, order: seq<nat>)
    requires Consistent(g) && IsOrder(g, order) && |order| == |g.nodes| && WritesAll(g, kernels)
    requires forall v :: 0 <= v < |g.values| && g.values[v].kind != Intermediate ==> v in given
    ensures var env := Naive(g, kernels, given, order, |order|);
      && Computes(g, kernels, env)
      && forall v :: 0 <= v < |g.values| && g.values[v].kind != Intermediate ==> v in env && env[v] == given[v]
  {
    hide IsOrder, Consistent, Naive, WritesAll, Fetch;
    var env := Naive(g, kernels, given, order, |order|);
    forall n | 0 <= n < |g.nodes| ensures NodeComputes(g, kernels, env, n) {
      var k := StepOf(g, order, n);
      StepComputes(g, kernels, given, order, k);
    }
    forall v | 0 <= v < |g.values| && g.values[v].kind != Intermediate ensures v in env && env[v] == given[v] {
      GivenStays(g, kernels, given, order, v);
    }
  }

  lemma StepOf(g: Graph, order: seq<nat>, n: nat) returns (k: nat)
    requires IsOrder(g, order) && n < |g.nodes|
    ensures k < |order| && order[k] == n
  {
    assert n in order;
    k :| 0 <= k < |order| && order[k] == n;
  }

  lemma GivenStays(g: Graph, kernels: Kernels, given: map<nat, Tensor>, order: seq<nat>, v: nat)
    requires Consistent(g) && IsOrder(g, order) && |order| == |g.nodes| && v < |g.values| && g.values[v].kind != Intermediate && v in given
    ensures var env := Naive(g, kernels, given, order, |order|); v in env && env[v] == given[v]
  {
    assert ValueOk(g, v);
    hide IsOrder, Consistent;
    SettledAfter(g, kernels, given, order, 0, v);
  }

  lemma StepComputes(g: Graph, kernels: Kernels, given: map<nat, Tensor>, order: seq<nat>, k: nat)
    requires Consistent(g) && IsOrder(g, order) && |order| == |g.nodes| && WritesAll(g, kernels) && k < |order| && order[k] < |g.nodes|
    requires forall v :: 0 <= v < |g.values| && g.values[v].kind != Intermediate ==> v in given
    ensures NodeComputes(g, kernels, Naive(g, kernels, given, order, |order|), order[k])
  {
    var n := order[k];
    var node, before, env := g.nodes[n], Naive(g, kernels, given, order, k), Naive(g, kernels, given, order, |order|);
    var ys := kernels.run(n, FetchAll(before, node.inputs));
    assert OutputShape(g, n, ys);
    assert Naive(g, kernels, given, order, k + 1) == Bind(before, node.outputs, ys);
    assert NodeOk(g, n);
    hide IsOrder, Consistent, Naive, WritesAll, OutputShape;
    forall j | 0 <= j < |node.inputs| ensures node.inputs[j] in env && env[node.inputs[j]] == Fetch(before, node.inputs[j]) {
      InputSettled(g, kernels, given, order, k, node.inputs[j]);
    }
    forall i | 0 <= i < |node.outputs| ensures node.outputs[i] in env && env[node.outputs[i]] == ys[i] {
      BindAt(before, node.outputs, ys, i);
      BindGrows(before, node.outputs, ys);
      OutputSettled(g, kernels, given, order, k, node.outputs[i]);
    }
    forall xs: seq<Tensor> | |xs| == |node.inputs| && (forall j :: 0 <= j < |xs| ==> xs[j] == env[node.inputs[j]])
      ensures kernels.run(n, xs) == ys
    {
      assert xs == FetchAll(before, node.inputs);
    }
  }

  /** The tensor read at step `k` is the final one. */
  lemma InputSettled(g: Graph, kernels: Kernels, given: map<nat, Tensor>, order: seq<nat>, k: nat, v: nat)
    requires Consistent(g) && IsOrder(g, order) && |order| == |g.nodes| && WritesAll(g, kernels) && k < |order| && order[k] < |g.nodes| && v in g.nodes[order[k]].inputs
    requires forall x :: 0 <= x < |g.values| && g.values[x].kind != Intermediate ==> x in given
    ensures var env := Naive(g, kernels, given, order, |order|); v in env && env[v] == Fetch(Naive(g, kernels, given, order, k), v)
  {
    hide IsOrder, Naive, WritesAll, Consistent;
    InputEarlier(g, order, k, v);
    SettledAfter(g, kernels, given, order, k, v);
    EveryValue(g, kernels, given, order, v);
  }

  lemma OutputSettled(g: Graph, kernels: Kernels, given: map<nat, Tensor>, order: seq<nat>, k: nat, o: nat)
    requires Consistent(g) && IsOrder(g, order) && |order| == |g.nodes| && k < |order| && order[k] < |g.nodes| && o in g.nodes[order[k]].outputs
    requires o in Naive(g, kernels, given, order, k + 1)
    ensures var env := Naive(g, kernels, given, order, |order|); o in env && env[o] == Fetch(Naive(g, kernels, given, order, k + 1), o)
  {
    OwnOutputs(g, order[k], o);
    hide Naive, Consistent, Dependencies, ChosenAt;
    SettledAfter(g, kernels, given, order, k + 1, o);
  }

  /** Every value has a tensor in the end. */
  lemma EveryValue(g: Graph, kernels: Kernels, given: map<nat, Tensor>, order: seq<nat>, v: nat)
    requires Consistent(g) && IsOrder(g, order) && |order| == |g.nodes| && WritesAll(g, kernels) && v < |g.values|
    requires forall x :: 0 <= x < |g.values| && g.values[x].kind != Intermediate ==> x in given
    ensures v in Naive(g, kernels, given, order, |order|)
  {
    assert ValueOk(g, v);
    if g.values[v].kind == Intermediate {
      var n := g.values[v].producer.value;
      var k := StepOf(g, order, n);
      ProducedStep(g, kernels, given, order, k, v);
      hide IsOrder, Naive, WritesAll, Consistent;
      OutputSettled(g, kernels, given, order, k, v);
    } else {
      hide IsOrder, Naive, WritesAll, Consistent;
      GivenStays(g, kernels, given, order, v);
    }
  }

  lemma ProducedStep(g: Graph, kernels: Kernels, given: map<nat, Tensor>, order: seq<nat>, k: nat, o: nat)
    requires WritesAll(g, kernels) && k < |order| && order[k] < |g.nodes| && o in g.nodes[order[k]].outputs
    ensures o in Naive(g, kernels, given, order, k + 1)
  {
    var n, env := order[k], Naive(g, kernels, given, order, k);
    var ys := kernels.run(n, FetchAll(env, g.nodes[n].inputs));
    assert OutputShape(g, n, ys);
    BindGrows(env, g.nodes[n].outputs, ys);
  }

  /** The equations leave no choice: two solutions with the same given tensors agree on every value. */
  lemma DataflowUnique(g: Graph, kernels: Kernels, order: seq<nat>, a: map<nat, Tensor>, b: map<nat, Tensor>, v: nat)
    requires Consistent(g) && IsOrder(g, order) && |order| == |g.nodes| && Computes(g, kernels, a) && Computes(g, kernels, b) && v < |g.values|
    requires forall x :: 0 <= x < |g.values| && g.values[x].kind != Intermediate ==> x in a && x in b && a[x] == b[x]
    ensures v in a && v in b && a[v] == b[v]
  {
    assert ValueOk(g, v);
    hide IsOrder, Computes, Consistent;
    if g.values[v].kind == Intermediate {
      var k := StepOf(g, order, g.values[v].producer.value);
      StepsAgree(g, kernels, order, a, b, k + 1);
    }
  }

  lemma {:induction false} StepsAgree(g: Graph, kernels: Kernels, order: seq<nat>, a: map<nat, Tensor>, b: map<nat, Tensor>, k: nat)
    requires Consistent(g) && IsOrder(g, order) && |order| == |g.nodes| && Computes(g, kernels, a) && Computes(g, kernels, b) && k <= |order|
    requires forall x :: 0 <= x < |g.values| && g.values[x].kind != Intermediate ==> x in a && x in b && a[x] == b[x]
    ensures forall x, v :: 0 <= x < k && order[x] < |g.nodes| && v in g.nodes[order[x]].outputs ==> v in a && v in b && a[v] == b[v]
    decreases k
  {
    if k > 0 {
      StepsAgree(g, kernels, order, a, b, k - 1);
      InRange(g, order);
      var n := order[k - 1];
      var node := g.nodes[n];
      assert NodeComputes(g, kernels, a, n) && NodeComputes(g, kernels, b, n);
      hide IsOrder, Computes, Consistent;
      var xs := seq(|node.inputs|, j requires 0 <= j < |node.inputs| => a[node.inputs[j]]);
      forall j | 0 <= j < |xs| ensures xs[j] == b[node.inputs[j]] {
        InputAgrees(g, kernels, order, a, b, k - 1, node.inputs[j]);
      }
    }
  }

  lemma InputAgrees(g: Graph, kernels: Kernels, order: seq<nat>, a: map<nat, Tensor>, b: map<nat, Tensor>, k: nat, v: nat)
    requires Consistent(g) && IsOrder(g, order) && |order| == |g.nodes| && k < |order| && order[k] < |g.nodes| && v in g.nodes[order[k]].inputs
    requires forall x :: 0 <= x < |g.values| && g.values[x].kind != Intermediate ==> x in a && x in b && a[x] == b[x]
    requires forall x, w :: 0 <= x < k && order[x] < |g.nodes| && w in g.nodes[order[x]].outputs ==> w in a && w in b && a[w] == b[w]
    ensures v in a && v in b && a[v] == b[v]
  {
    InputEarlier(g, order, k, v);
    assert ValueOk(g, v);
    hide Consistent, Dependencies, ChosenAt;
    if g.values[v].kind == Intermediate {
      var x := StepOf(g, order, g.values[v].producer.value);
      assert x < k;
    }
  }
}
