/** ExecutionContext and Executor (src/runtime/execution_context.cpp, src/runtime/executor.cpp): running a graph inside one
    planned buffer, compared with one tensor per value. */
module PlannedExecution {
  import opened Prelude
  import opened Buffers
  import opened GraphOrder
  import opened GraphDataflow
  import opened SlotAllocation
  import opened MemoryPlanning

  // ---- The shared buffer ----

  /** What a context holds for a value: nothing, a tensor of its own, or a range of the shared buffer. */
  datatype Stored = Absent | Owned(data: Tensor) | View(offset: nat, bytes: nat)

  function Content(buffer: seq<int>, s: Stored): Tensor {
    match s
    case Absent => []
    case Owned(data) => data
    case View(offset, bytes) => if offset + bytes <= |buffer| then buffer[offset..offset + bytes] else []
  }

  /** `v` was produced before step `k` and is needed at step `k` or later. */
  predicate Needed(p: Plan, v: nat, k: nat) {
    v < |p.lifetimes| && p.lifetimes[v].Some? && p.lifetimes[v].value.first < k <= p.lifetimes[v].value.last
  }

  /** A value sits in its planned range and holds its naive tensor. */
  ghost predicate Holds(p: Plan, buffer: seq<int>, s: Stored, v: nat, t: Tensor) {
    && v < |p.allocations| && p.allocations[v].Some?
    && s == View(p.allocations[v].value.offset, p.allocations[v].value.bytes) && s.offset + s.bytes <= |buffer|
    && Content(buffer, s) == t
  }

  /** Before step `k`: inputs and constants are owned, and every needed value is in place. */
  ghost predicate InPlace(g: Graph, p: Plan, given: map<nat, Tensor>, env: map<nat, Tensor>, buffer: seq<int>, values: seq<Stored>, k: nat) {
    && |values| == |g.values| && |buffer| == p.total
    && (forall v :: 0 <= v < |values| && g.values[v].kind != Intermediate ==> v in given && values[v] == Owned(given[v]) && Fetch(env, v) == given[v])
    && (forall v :: 0 <= v < |values| && Needed(p, v, k) ==> Holds(p, buffer, values[v], v, Fetch(env, v)))
  }

  // ---- Steps and lifetimes ----

  lemma ProducedAt(g: Graph, p: Plan, k: nat, v: nat)
    requires Consistent(g) && PlanOk(g, p) && k < |p.order| && v < |g.values| && p.order[k] < |g.nodes|
    ensures v in g.nodes[p.order[k]].outputs <==> p.lifetimes[v].Some? && p.lifetimes[v].value.first == k
  {
    assert ValueOk(g, v) && NodeOk(g, p.order[k]);
    hide Apart, InBounds, SlotsArePeak, ReleasesOk, Uses, ChosenAt;
    if p.lifetimes[v].Some? {
      assert IsLifetime(g, p.order, v, p.lifetimes[v].value);
    }
  }

  /** An input of step `k` is given from outside or was produced before and is still needed. */
  lemma InputNeeded(g: Graph, p: Plan, k: nat, v: nat)
    requires Consistent(g) && PlanOk(g, p) && k < |p.order| && p.order[k] < |g.nodes| && v in g.nodes[p.order[k]].inputs
    ensures v < |g.values| && (g.values[v].kind == Intermediate ==> Needed(p, v, k))
  {
    assert NodeOk(g, p.order[k]) && ValueOk(g, v);
    hide Apart, InBounds, SlotsArePeak, ReleasesOk, ChosenAt;
    if g.values[v].kind == Intermediate {
      assert IsLifetime(g, p.order, v, p.lifetimes[v].value);
      var t := p.lifetimes[v].value;
      assert Uses(g, p.order, k, v);
      assert p.order[t.first] in Dependencies(g, p.order[k]);
      DependencyBefore(g, p.order, k, t.first);
    }
  }

  /** Two values alive at step `k` do not share a byte. */
  lemma AliveApart(g: Graph, p: Plan, k: nat, v: nat, w: nat)
    requires PlanOk(g, p) && v < |p.lifetimes| && w < |p.lifetimes| && v != w && p.lifetimes[v].Some? && p.lifetimes[w].Some?
    requires p.lifetimes[v].value.first <= k <= p.lifetimes[v].value.last && p.lifetimes[w].value.first <= k <= p.lifetimes[w].value.last
    ensures |p.allocations| == |p.lifetimes| && p.allocations[v].Some? && p.allocations[w].Some?
    ensures Disjoint(p.allocations[v].value, p.allocations[w].value)
  {
    hide IsOrder, LifetimesOk, ReleasesOk, SlotsArePeak, NaiveBytes, Sum;
    assert AliveTogether(p.lifetimes[v], p.lifetimes[w]);
  }

  lemma StoreKeeps(p: Plan, before: seq<int>, after: seq<int>, a: Allocation, data: Tensor, v: nat, s: Stored, t: Tensor)
    requires Holds(p, before, s, v, t) && RunWritten(before, after, a.offset, data) && |data| == a.bytes && Disjoint(p.allocations[v].value, a)
    ensures Holds(p, after, s, v, t)
  {
    var got := after[s.offset..s.offset + s.bytes];
    forall i: nat | i < s.bytes ensures got[i] == before[s.offset..s.offset + s.bytes][i] {
      RunAt(before, after, a.offset, data, s.offset + i);
    }
  }

  /** During step `k`: everything needed is still in place, and the first `i` outputs are too. */
  ghost predicate MidStep(g: Graph, p: Plan, given: map<nat, Tensor>, env: map<nat, Tensor>, buffer: seq<int>, values: seq<Stored>,
                          k: nat, outputs: seq<nat>, ys: seq<Tensor>, i: nat)
    requires i <= |outputs| == |ys|
  {
    && InPlace(g, p, given, env, buffer, values, k)
    && forall j :: 0 <= j < i ==> outputs[j] < |values| && Holds(p, buffer, values[outputs[j]], outputs[j], ys[j])
  }

  lemma OutputStored(g: Graph, p: Plan, given: map<nat, Tensor>, env: map<nat, Tensor>, before: seq<int>, after: seq<int>, values: seq<Stored>,
                     k: nat, ys: seq<Tensor>, i: nat)
    requires Consistent(g) && PlanOk(g, p) && k < |p.order| && p.order[k] < |g.nodes|
    requires var outputs := g.nodes[p.order[k]].outputs;
      && OutputShape(g, p.order[k], ys) && i < |outputs| && MidStep(g, p, given, env, before, values, k, outputs, ys, i)
      && outputs[i] < |p.allocations| && p.allocations[outputs[i]].Some?
      && RunWritten(before, after, p.allocations[outputs[i]].value.offset, ys[i])
    ensures var outputs := g.nodes[p.order[k]].outputs;
      var a := p.allocations[outputs[i]].value;
      MidStep(g, p, given, env, after, values[outputs[i] := View(a.offset, a.bytes)], k, outputs, ys, i + 1)
  {
    var outputs := g.nodes[p.order[k]].outputs;
    var a := p.allocations[outputs[i]].value;
    NeededStored(g, p, given, env, before, after, values, k, ys, i);
    hide PlanOk, Consistent, RunWritten, Holds, InPlace;
    forall j | 0 <= j < i ensures Holds(p, after, values[outputs[j]], outputs[j], ys[j]) && outputs[j] != outputs[i] {
      EarlierStored(g, p, before, after, values, k, ys, i, j);
    }
    OutputAlive(g, p, k, i);
    StoredHolds(p, before, after, a, ys[i], outputs[i]);
  }

  /** A value still needed is not disturbed by an output. */
  lemma NeededStored(g: Graph, p: Plan, given: map<nat, Tensor>, env: map<nat, Tensor>, before: seq<int>, after: seq<int>, values: seq<Stored>,
                     k: nat, ys: seq<Tensor>, i: nat)
    requires Consistent(g) && PlanOk(g, p) && k < |p.order| && p.order[k] < |g.nodes| && InPlace(g, p, given, env, before, values, k)
    requires var outputs := g.nodes[p.order[k]].outputs;
      && OutputShape(g, p.order[k], ys) && i < |outputs| && outputs[i] < |p.allocations| && p.allocations[outputs[i]].Some?
      && RunWritten(before, after, p.allocations[outputs[i]].value.offset, ys[i])
    ensures var o := g.nodes[p.order[k]].outputs[i];
      var a := p.allocations[o].value;
      o < |values| && InPlace(g, p, given, env, after, values[o := View(a.offset, a.bytes)], k)
  {
    assert |after| == |before|;
    hide PlanOk, Consistent, RunWritten, Holds, Needed, Fetch;
    var o := g.nodes[p.order[k]].outputs[i];
    var a := p.allocations[o].value;
    OutputAlive(g, p, k, i);
    var next := values[o := View(a.offset, a.bytes)];
    forall v | 0 <= v < |next| && Needed(p, v, k) ensures Holds(p, after, next[v], v, Fetch(env, v)) {
      NeededApart(g, p, k, v, o);
      StoreKeeps(p, before, after, a, ys[i], v, values[v], Fetch(env, v));
    }
  }

  /** An output stored before is not disturbed by the next one. */
  lemma EarlierStored(g: Graph, p: Plan, before: seq<int>, after: seq<int>, values: seq<Stored>, k: nat, ys: seq<Tensor>, i: nat, j: nat)
    requires Consistent(g) && PlanOk(g, p) && k < |p.order| && p.order[k] < |g.nodes|
    requires var outputs := g.nodes[p.order[k]].outputs;
      && OutputShape(g, p.order[k], ys) && j < i < |outputs| && outputs[j] < |values| && Holds(p, before, values[outputs[j]], outputs[j], ys[j])
      && outputs[i] < |p.allocations| && p.allocations[outputs[i]].Some?
      && RunWritten(before, after, p.allocations[outputs[i]].value.offset, ys[i])
    ensures var outputs := g.nodes[p.order[k]].outputs;
      outputs[j] != outputs[i] && Holds(p, after, values[outputs[j]], outputs[j], ys[j])
  {
    hide PlanOk, Consistent, RunWritten, Holds;
    var outputs := g.nodes[p.order[k]].outputs;
    OutputAlive(g, p, k, i);
    OutputAlive(g, p, k, j);
    OutputsDiffer(g, p.order[k], j, i);
    AliveApart(g, p, k, outputs[j], outputs[i]);
    StoreKeeps(p, before, after, p.allocations[outputs[i]].value, ys[i], outputs[j], values[outputs[j]], ys[j]);
  }

  /** The outputs of step `k` are alive from step `k` on. */
  lemma OutputAlive(g: Graph, p: Plan, k: nat, i: nat)
    requires Consistent(g) && PlanOk(g, p) && k < |p.order| && p.order[k] < |g.nodes| && i < |g.nodes[p.order[k]].outputs|
    ensures var o := g.nodes[p.order[k]].outputs[i];
      && o < |g.values| == |p.lifetimes| && g.values[o].kind == Intermediate && p.lifetimes[o].Some?
      && p.lifetimes[o].value.first == k <= p.lifetimes[o].value.last
      && o < |p.allocations| && p.allocations[o].Some? && p.allocations[o].value.bytes == g.values[o].bytes
  {
    var o := g.nodes[p.order[k]].outputs[i];
    assert NodeOk(g, p.order[k]) && ValueOk(g, o);
    hide PlanOk, Consistent;
    ProducedAt(g, p, k, o);
    PlanFacts(g, p, o);
  }

  lemma OutputsDiffer(g: Graph, n: nat, j: nat, i: nat)
    requires Consistent(g) && n < |g.nodes| && j < i < |g.nodes[n].outputs|
    ensures g.nodes[n].outputs[j] != g.nodes[n].outputs[i]
  {
    assert NodeOk(g, n);
  }

  lemma NeededApart(g: Graph, p: Plan, k: nat, v: nat, o: nat)
    requires PlanOk(g, p) && Needed(p, v, k) && o < |p.lifetimes| && p.lifetimes[o].Some? && p.lifetimes[o].value.first == k <= p.lifetimes[o].value.last
    ensures v != o && |p.allocations| == |p.lifetimes| && v < |p.lifetimes| && p.allocations[v].Some? && p.allocations[o].Some?
    ensures Disjoint(p.allocations[v].value, p.allocations[o].value)
  {
    hide PlanOk;
    AliveApart(g, p, k, v, o);
  }

  lemma StoredHolds(p: Plan, before: seq<int>, after: seq<int>, a: Allocation, data: Tensor, o: nat)
    requires o < |p.allocations| && p.allocations[o] == Some(a) && RunWritten(before, after, a.offset, data) && |data| == a.bytes
    ensures Holds(p, after, View(a.offset, a.bytes), o, data)
  {
  }

  lemma PlanFacts(g: Graph, p: Plan, v: nat)
    requires PlanOk(g, p) && v < |g.values|
    ensures |p.lifetimes| == |p.allocations| == |g.values| && (p.lifetimes[v].Some? <==> p.allocations[v].Some?)
    ensures p.lifetimes[v].Some? ==>
      && p.allocations[v].value.bytes == g.values[v].bytes && p.allocations[v].value.offset + p.allocations[v].value.bytes <= p.total
      && p.lifetimes[v].value.first <= p.lifetimes[v].value.last
    ensures p.lifetimes[v].Some? <==> g.values[v].kind == Intermediate
  {
    hide IsOrder, Apart, ReleasesOk, SlotsArePeak, NaiveBytes, Sum;
    if p.lifetimes[v].Some? {
      assert IsLifetime(g, p.order, v, p.lifetimes[v].value);
    }
  }

  /** After the outputs are stored and the dead values dropped, the next step finds everything in place. */
  lemma StepDone(g: Graph, p: Plan, given: map<nat, Tensor>, env: map<nat, Tensor>, buffer: seq<int>, values: seq<Stored>, released: seq<Stored>,
                 k: nat, ys: seq<Tensor>)
    requires Consistent(g) && PlanOk(g, p) && k < |p.order| && p.order[k] < |g.nodes| && OutputShape(g, p.order[k], ys)
    requires var outputs := g.nodes[p.order[k]].outputs; MidStep(g, p, given, env, buffer, values, k, outputs, ys, |outputs|)
    requires k < |p.releases| && Dropped(values, released, p.releases[k])
    ensures InPlace(g, p, given, Bind(env, g.nodes[p.order[k]].outputs, ys), buffer, released, k + 1)
  {
    var outputs := g.nodes[p.order[k]].outputs;
    var more := Bind(env, outputs, ys);
    assert NodeOk(g, p.order[k]);
    hide PlanOk, Consistent, Holds;
    forall v | 0 <= v < |released|
      ensures Needed(p, v, k + 1) ==> Holds(p, buffer, released[v], v, Fetch(more, v))
      ensures g.values[v].kind != Intermediate ==> released[v] == values[v] && Fetch(more, v) == Fetch(env, v)
    {
      ProducedAt(g, p, k, v);
      PlanFacts(g, p, v);
      ReleasedNow(g, p, k, v);
      if v in outputs {
        var j :| 0 <= j < |outputs| && outputs[j] == v;
        BindAt(env, outputs, ys, j);
      } else {
        BindOther(env, outputs, ys, v);
      }
    }
  }

  lemma ReleasedNow(g: Graph, p: Plan, k: nat, v: nat)
    requires PlanOk(g, p) && k < |p.releases| && v < |g.values|
    ensures |p.lifetimes| == |g.values|
    ensures v in p.releases[k] <==> p.lifetimes[v].Some? && p.lifetimes[v].value.last == k
  {
    hide IsOrder, Apart, InBounds, SlotsArePeak, NaiveBytes, Sum, IsLifetime;
    assert ReleasedAt(p.lifetimes, p.releases[k], k);
  }

  /** The listed values were dropped and no others. */
  ghost predicate Dropped(before: seq<Stored>, after: seq<Stored>, list: seq<nat>) {
    |after| == |before| && forall v :: 0 <= v < |after| ==> after[v] == if v in list then Absent else before[v]
  }

  // ---- The context ----

  ghost function Given(g: Graph, values: seq<Stored>): map<nat, Tensor> {
    map v: nat | v < |values| && v < |g.values| && g.values[v].kind != Intermediate && values[v].Owned? :: values[v].data
  }

  /** Every registered input has a tensor. */
  ghost predicate AllBound(g: Graph, values: seq<Stored>) {
    forall i :: 0 <= i < |g.inputs| ==> g.inputs[i] < |values| && !values[g.inputs[i]].Absent?
  }

  /** Constants are always there, and only inputs and constants have tensors of their own. */
  ghost predicate BoundOk(g: Graph, values: seq<Stored>) {
    && |values| == |g.values| == |g.constants|
    && forall v :: 0 <= v < |values| ==>
         && (g.values[v].kind == Constant ==> g.constants[v].Some? && values[v] == Owned(g.constants[v].value))
         && (g.values[v].kind == Input ==> !values[v].View?)
  }

  /** With all inputs bound, everything but the intermediate values is there. */
  lemma InputsSuffice(g: Graph, values: seq<Stored>, v: nat)
    requires Consistent(g) && BoundOk(g, values) && AllBound(g, values) && v < |values| && g.values[v].kind != Intermediate
    ensures values[v].Owned?
  {
    assert ValueOk(g, v);
    hide NodeOk;
    if g.values[v].kind == Input {
      assert v in g.inputs;
      var i :| 0 <= i < |g.inputs| && g.inputs[i] == v;
    }
  }

  /** Changing intermediate values only leaves inputs and constants alone. */
  lemma BoundKept(g: Graph, before: seq<Stored>, after: seq<Stored>)
    requires BoundOk(g, before) && |after| == |before| && forall v :: 0 <= v < |after| && g.values[v].kind != Intermediate ==> after[v] == before[v]
    ensures BoundOk(g, after)
  {
  }

  class ExecutionContext {
    const g: Graph
    const plan: Plan
    const buffer: array<int>
    var values: seq<Stored>

    ghost predicate Valid()
      reads this, buffer
    {
      Consistent(g) && PlanOk(g, plan) && buffer.Length == plan.total && BoundOk(g, values)
    }

    /** A planned context: constants bound, everything else absent. */
    constructor (g: Graph, plan: Plan)
      requires Consistent(g) && PlanOk(g, plan)
      ensures Valid() && this.g == g && this.plan == plan && fresh(buffer)
      ensures forall v :: 0 <= v < |values| ==>
        values[v] == if g.values[v].kind == Constant && g.constants[v].Some? then Owned(g.constants[v].value) else Absent
    {
      ConstantsThere(g);
      this.g, this.plan := g, plan;
      buffer := new int[plan.total];
      values := seq(|g.values|, v requires 0 <= v < |g.values| =>
        if g.values[v].kind == Constant && g.constants[v].Some? then Owned(g.constants[v].value) else Absent);
    }

    /** Binds an input; refused for anything but an input of the right size. */
    method BindInput(id: nat, t: Tensor) returns (ok: bool)
      requires Valid()
      modifies this
      ensures Valid() && (ok <==> id < |g.values| && g.values[id].kind == Input && |t| == g.values[id].bytes)
      ensures values == if ok then old(values)[id := Owned(t)] else old(values)
    {
      hide Consistent, PlanOk;
      if id >= |g.values| || g.values[id].kind != Input || |t| != g.values[id].bytes {
        return false;
      }
      values := values[id := Owned(t)];
      ok := true;
    }

    /** The tensor of a value; None stands for the exceptions on an unknown id and on a value that is not materialized. */
    method Value(id: nat) returns (r: Option<Tensor>)
      requires Valid()
      ensures r.None? <==> id >= |values| || values[id].Absent?
      ensures r.Some? ==> r.value == Content(buffer[..], values[id])
    {
      hide Consistent, PlanOk;
      if id >= |values| {
        return None;
      }
      match values[id]
      case Absent => r := None;
      case Owned(data) => r := Some(data);
      case View(offset, bytes) => r := Some(if offset + bytes <= buffer.Length then buffer[offset..offset + bytes] else []);
    }

    method ClearIntermediates()
      requires Valid()
      modifies this
      ensures Valid() && forall v :: 0 <= v < |values| ==> values[v] == if g.values[v].kind == Intermediate then Absent else old(values)[v]
    {
      hide Consistent, PlanOk;
      for v := 0 to |values|
        invariant Valid() && |values| == |old(values)|
        invariant forall x :: 0 <= x < |values| ==> values[x] == if x < v && g.values[x].kind == Intermediate then Absent else old(values)[x]
      {
        if g.values[v].kind == Intermediate {
          values := values[v := Absent];
        }
      }
    }

    /** Drops the values whose last step has just run. */
    method ReleaseAfterStep(k: nat)
      requires Valid() && k < |plan.releases|
      modifies this
      ensures Valid() && Dropped(old(values), values, plan.releases[k])
    {
      hide Consistent, PlanOk, BoundOk;
      BoundLength(g, values);
      ReleasesInRange(g, plan, k);
      var list := plan.releases[k];
      for i := 0 to |list|
        invariant Consistent(g) && PlanOk(g, plan) && buffer.Length == plan.total && Dropped(old(values), values, list[..i])
      {
        assert list[..i + 1] == list[..i] + [list[i]];
        values := values[list[i] := Absent];
      }
      assert list[..|list|] == list;
      BoundKept(g, old(values), values);
    }

    /** Reads the inputs of step `k`; none of them can be absent. */
    method ReadInputs(k: nat, ghost given: map<nat, Tensor>, ghost env: map<nat, Tensor>) returns (xs: seq<Tensor>)
      requires Valid() && k < |plan.order| && plan.order[k] < |g.nodes| && InPlace(g, plan, given, env, buffer[..], values, k)
      ensures xs == FetchAll(env, g.nodes[plan.order[k]].inputs)
    {
      hide Consistent, PlanOk;
      var inputs := g.nodes[plan.order[k]].inputs;
      xs := [];
      for i := 0 to |inputs|
        invariant |xs| == i && xs == FetchAll(env, inputs)[..i]
      {
        InputNeeded(g, plan, k, inputs[i]);
        var x := Value(inputs[i]);
        assert x.Some?;
        xs := xs + [x.value];
      }
    }

    /** Runs node number `k` of the order and stores its outputs in their planned ranges. */
    method Execute(k: nat, kernels: Kernels, ghost given: map<nat, Tensor>, ghost env: map<nat, Tensor>) returns (ghost read: seq<Tensor>, ghost ys: seq<Tensor>)
      requires Valid() && k < |plan.order| && plan.order[k] < |g.nodes| && InPlace(g, plan, given, env, buffer[..], values, k)
      requires WritesAll(g, kernels)
      modifies this, buffer
      ensures var inputs := g.nodes[plan.order[k]].inputs;
        && |read| == |inputs| && (forall j :: 0 <= j < |read| && inputs[j] in env ==> read[j] == env[inputs[j]])
        && read == FetchAll(env, inputs) && ys == kernels.run(plan.order[k], read)
      ensures Valid() && OutputShape(g, plan.order[k], ys)
      ensures MidStep(g, plan, given, env, buffer[..], values, k, g.nodes[plan.order[k]].outputs, ys, |g.nodes[plan.order[k]].outputs|)
    {
      hide Consistent, PlanOk, InPlace, RunWritten, Holds, BoundOk;
      BoundLength(g, values);
      var n := plan.order[k];
      var xs := ReadInputs(k, given, env);
      var computed := kernels.run(n, xs);
      read, ys := xs, computed;
      var outputs := g.nodes[n].outputs;
      assert OutputShape(g, n, computed);
      for i := 0 to |outputs|
        invariant Valid() && |values| == |g.values| && MidStep(g, plan, given, env, buffer[..], values, k, outputs, computed, i)
      {
        var o := outputs[i];
        ghost var before := buffer[..];
        OutputPlanned(g, plan, k, o);
        var a := plan.allocations[o].value;
        WriteRun(buffer, a.offset, computed[i]);
        OutputStored(g, plan, given, env, before, buffer[..], values, k, computed, i);
        ghost var stored := values;
        values := values[o := View(a.offset, a.bytes)];
        BoundKept(g, stored, values);
      }
    }
  }

  lemma OutputPlanned(g: Graph, p: Plan, k: nat, o: nat)
    requires Consistent(g) && PlanOk(g, p) && k < |p.order| && p.order[k] < |g.nodes| && o in g.nodes[p.order[k]].outputs
    ensures o < |g.values| == |p.allocations| && p.allocations[o].Some? && g.values[o].kind == Intermediate
    ensures p.allocations[o].value.bytes == g.values[o].bytes && p.allocations[o].value.offset + p.allocations[o].value.bytes <= p.total
  {
    assert NodeOk(g, p.order[k]);
    hide PlanOk, Consistent;
    ProducedAt(g, p, k, o);
    PlanFacts(g, p, o);
  }

  /** Executor::run: in the shared buffer, releasing dead values, every graph output ends with its naive tensor. */
  method RunGraph(c: ExecutionContext, kernels: Kernels) returns (ok: bool)
    requires c.Valid() && WritesAll(c.g, kernels)
    modifies c, c.buffer
    ensures c.Valid() && (ok <==> AllBound(c.g, old(c.values)))
    ensures ok ==>
      var env := Naive(c.g, kernels, Given(c.g, old(c.values)), c.plan.order, |c.plan.order|);
      forall v :: v in c.g.outputs ==> v < |c.values| && !c.values[v].Absent? && Content(c.buffer[..], c.values[v]) == Fetch(env, v)
    ensures ok ==> exists env: map<nat, Tensor> ::
      && Computes(c.g, kernels, env)
      && (forall v :: 0 <= v < |old(c.values)| && c.g.values[v].kind != Intermediate ==> v in env && old(c.values)[v] == Owned(env[v]))
      && forall v :: v in c.g.outputs ==> v in env && v < |c.values| && !c.values[v].Absent? && Content(c.buffer[..], c.values[v]) == env[v]
  {
    hide Consistent, PlanOk, InPlace, WritesAll, BoundOk, Computes;
    BoundLength(c.g, c.values);
    var bound := AllInputsBound(c.g, c.values);
    if !bound {
      return false;
    }
    ghost var given := Given(c.g, c.values);
    GivenAll(c.g, c.values);
    c.ClearIntermediates();
    BoundLength(c.g, c.values);
    StartInPlace(c.g, c.plan, given, c.buffer[..], c.values);
    OrderInRange(c.g, c.plan);
    var ordered := TopologicalOrder(c.g);
    PlannedOrder(c.g, c.plan, ordered);
    var order := ordered.order;
    for k := 0 to |order|
      invariant c.Valid() && InPlace(c.g, c.plan, given, Naive(c.g, kernels, given, c.plan.order, k), c.buffer[..], c.values, k)
    {
      ghost var env := Naive(c.g, kernels, given, c.plan.order, k);
      ghost var _, ys := c.Execute(k, kernels, given, env);
      ghost var before := c.values;
      c.ReleaseAfterStep(k);
      StepDone(c.g, c.plan, given, env, c.buffer[..], before, c.values, k, ys);
    }
    ghost var solution := Naive(c.g, kernels, given, c.plan.order, |c.plan.order|);
    Solves(c.g, c.plan, kernels, given);
    forall v | v in c.g.outputs
      ensures v < |c.values| && !c.values[v].Absent? && v in solution && Content(c.buffer[..], c.values[v]) == Fetch(solution, v)
    {
      OutputInPlace(c.g, c.plan, given, Naive(c.g, kernels, given, c.plan.order, |c.plan.order|), c.buffer[..], c.values, v);
    }
    ok := true;
  }

  /** What naive execution computes solves the dataflow equations. */
  lemma Solves(g: Graph, p: Plan, kernels: Kernels, given: map<nat, Tensor>)
    requires Consistent(g) && PlanOk(g, p) && WritesAll(g, kernels)
    requires forall v :: 0 <= v < |g.values| && g.values[v].kind != Intermediate ==> v in given
    ensures var env := Naive(g, kernels, given, p.order, |p.order|);
      && Computes(g, kernels, env) && (forall v :: v in g.outputs ==> v in env)
      && forall v :: 0 <= v < |g.values| && g.values[v].kind != Intermediate ==> v in env && env[v] == given[v]
  {
    assert IsOrder(g, p.order) && |p.order| == |g.nodes|;
    assert forall v :: v in g.outputs ==> v < |g.values|;
    hide PlanOk, Consistent, IsOrder, Computes, Naive, WritesAll;
    NaiveComputes(g, kernels, given, p.order);
    forall v | v in g.outputs ensures v in Naive(g, kernels, given, p.order, |p.order|) {
      EveryValue(g, kernels, given, p.order, v);
    }
  }

  /** The executor's own order is the planned one. */
  lemma PlannedOrder(g: Graph, p: Plan, r: OrderResult)
    requires Consistent(g) && PlanOk(g, p)
    requires (r.Malformed? <==> !Consistent(g)) && (r.HasCycle? <==> Consistent(g) && Cyclic(g)) && (r.Order? ==> IsOrder(g, r.order))
    ensures r == Order(p.order)
  {
    assert IsOrder(g, p.order) && |p.order| == |g.nodes|;
    hide PlanOk, Consistent, IsOrder, Cyclic;
    OrderedAcyclic(g, p.order);
    if r.Order? {
      OrderLength(g, r.order);
      OrderUnique(g, r.order, p.order);
    }
  }

  method AllInputsBound(g: Graph, values: seq<Stored>) returns (ok: bool)
    requires Consistent(g) && |values| == |g.values|
    ensures ok <==> AllBound(g, values)
  {
    InputIds(g);
    hide Consistent;
    for i := 0 to |g.inputs|
      invariant forall x :: 0 <= x < i ==> !values[g.inputs[x]].Absent?
    {
      if values[g.inputs[i]].Absent? {
        return false;
      }
    }
    ok := true;
  }

  lemma InputIds(g: Graph)
    requires Consistent(g)
    ensures forall i :: 0 <= i < |g.inputs| ==> g.inputs[i] < |g.values|
  {
    hide NodeOk, ValueOk;
  }

  lemma ConstantsThere(g: Graph)
    requires Consistent(g)
    ensures |g.constants| == |g.values| && forall v :: 0 <= v < |g.values| && g.values[v].kind == Constant ==> g.constants[v].Some?
  {
    hide NodeOk;
    forall v | 0 <= v < |g.values| && g.values[v].kind == Constant ensures g.constants[v].Some? {
      assert ValueOk(g, v);
    }
  }

  lemma BoundLength(g: Graph, values: seq<Stored>)
    requires BoundOk(g, values)
    ensures |values| == |g.values|
  {
  }

  lemma GivenAll(g: Graph, values: seq<Stored>)
    requires Consistent(g) && BoundOk(g, values) && AllBound(g, values)
    ensures |values| == |g.values|
    ensures forall v: nat :: v < |values| && g.values[v].kind != Intermediate ==> v in Given(g, values) && values[v] == Owned(Given(g, values)[v])
  {
    hide Consistent, AllBound;
    forall v: nat | v < |values| && g.values[v].kind != Intermediate ensures values[v].Owned? {
      InputsSuffice(g, values, v);
    }
  }

  /** A context for a plan: refused exactly when the plan was made for another graph. */
  method NewContext(g: Graph, owner: Graph, plan: Plan) returns (c: ExecutionContext?)
    requires Consistent(owner) && PlanOk(owner, plan)
    ensures c != null <==> owner == g
    ensures c != null ==> c.Valid() && c.g == g && c.plan == plan && fresh(c) && fresh(c.buffer)
    ensures c != null ==> forall v :: 0 <= v < |c.values| ==>
      c.values[v] == if g.values[v].kind == Constant && g.constants[v].Some? then Owned(g.constants[v].value) else Absent
  {
    hide Consistent, PlanOk, BoundOk;
    if owner != g {
      return null;
    }
    c := new ExecutionContext(g, plan);
  }

  lemma StartInPlace(g: Graph, p: Plan, given: map<nat, Tensor>, buffer: seq<int>, values: seq<Stored>)
    requires |values| == |g.values| && |buffer| == p.total
    requires forall v :: 0 <= v < |values| && g.values[v].kind != Intermediate ==> v in given && values[v] == Owned(given[v])
    ensures InPlace(g, p, given, given, buffer, values, 0)
  {
  }

  lemma OrderInRange(g: Graph, p: Plan)
    requires PlanOk(g, p)
    ensures |p.releases| == |p.order| && forall k :: 0 <= k < |p.order| ==> p.order[k] < |g.nodes|
  {
    InRange(g, p.order);
  }

  lemma ReleasesInRange(g: Graph, p: Plan, k: nat)
    requires PlanOk(g, p) && k < |p.releases|
    ensures forall i :: 0 <= i < |p.releases[k]| ==> p.releases[k][i] < |g.values|
    ensures forall v :: v in p.releases[k] ==> v < |g.values| && g.values[v].kind == Intermediate
  {
    hide IsOrder, Apart, InBounds, SlotsArePeak, NaiveBytes, Sum, IsLifetime;
    assert ReleasedAt(p.lifetimes, p.releases[k], k);
    forall i | 0 <= i < |p.releases[k]| ensures p.releases[k][i] < |g.values| {
      assert p.releases[k][i] in p.releases[k];
    }
  }

  lemma OutputInPlace(g: Graph, p: Plan, given: map<nat, Tensor>, env: map<nat, Tensor>, buffer: seq<int>, values: seq<Stored>, v: nat)
    requires Consistent(g) && PlanOk(g, p) && InPlace(g, p, given, env, buffer, values, |p.order|) && v in g.outputs
    ensures v < |values| && !values[v].Absent? && Content(buffer, values[v]) == Fetch(env, v)
  {
    assert v < |g.values|;
    PlanFacts(g, p, v);
    hide IsOrder, Apart, InBounds, SlotsArePeak, NaiveBytes, Sum, ReleasesOk, Consistent;
    if g.values[v].kind == Intermediate {
      assert IsLifetime(g, p.order, v, p.lifetimes[v].value);
      assert Needed(p, v, |p.order|);
    }
  }
}
