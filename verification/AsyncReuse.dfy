/** CudaExecutionContext::run (src/backend/cuda/execution_plan.cpp): nodes are submitted asynchronously and wait for
    earlier completions only where they overwrite a reused slot. */
module AsyncReuse {
  import opened Prelude
  import opened GraphOrder
  import opened SlotAllocation
  import opened MemoryPlanning
  import opened PlannedExecution

  /** Every operation of this backend has one output. */
  ghost predicate OneOutput(g: Graph) {
    forall n :: 0 <= n < |g.nodes| ==> |g.nodes[n].outputs| == 1
  }

  /** The value written by step `k`. */
  function OutputOf(g: Graph, p: Plan, k: nat): nat
    requires k < |p.order|
  {
    var n := p.order[k];
    if n < |g.nodes| && g.nodes[n].outputs != [] then g.nodes[n].outputs[0] else 0
  }

  /** Step `j` writes or reads `v`. */
  ghost predicate Touches(g: Graph, p: Plan, j: nat, v: nat)
    requires j < |p.order|
  {
    OutputOf(g, p, j) == v || Uses(g, p.order, j, v)
  }

  function SlotOf(p: Plan, v: nat): Option<nat> {
    if v < |p.allocations| && p.allocations[v].Some? then Some(p.allocations[v].value.slot) else None
  }

  /** Step `j` writes or reads an earlier occupant of the slot that step `k` overwrites. */
  ghost predicate Conflicts(g: Graph, p: Plan, j: nat, k: nat)
    requires j < |p.order| && k < |p.order|
  {
    var o := OutputOf(g, p, k);
    SlotOf(p, o).Some? && exists v: nat :: v != o && SlotOf(p, v) == SlotOf(p, o) && Touches(g, p, j, v)
  }

  // ---- Slots over time ----

  lemma OutputFacts(g: Graph, p: Plan, k: nat)
    requires Consistent(g) && OneOutput(g) && PlanOk(g, p) && k < |p.order| && p.order[k] < |g.nodes|
    ensures var o := OutputOf(g, p, k);
      && o < |p.lifetimes| == |p.allocations| && p.lifetimes[o].Some? && p.allocations[o].Some?
      && p.lifetimes[o].value.first == k <= p.lifetimes[o].value.last && p.allocations[o].value.slot < |p.capacities|
  {
    OutputAlive(g, p, k, 0);
    SlotInRange(g, p, OutputOf(g, p, k));
    hide PlanOk, Consistent;
  }

  lemma OutputName(g: Graph, p: Plan, k: nat)
    requires Consistent(g) && OneOutput(g) && PlanOk(g, p) && k < |p.order| && p.order[k] < |g.nodes|
    ensures g.nodes[p.order[k]].outputs != [] && OutputOf(g, p, k) == g.nodes[p.order[k]].outputs[0]
    ensures OutputOf(g, p, k) < |p.allocations| && p.allocations[OutputOf(g, p, k)].Some?
  {
    OutputFacts(g, p, k);
    hide PlanOk, Consistent;
    assert |g.nodes[p.order[k]].outputs| == 1;
  }

  lemma SlotInRange(g: Graph, p: Plan, v: nat)
    requires PlanOk(g, p)
    ensures |p.lifetimes| == |p.allocations|
    ensures v < |p.allocations| && p.allocations[v].Some? ==> p.lifetimes[v].Some? && p.allocations[v].value.slot < |p.capacities|
  {
    hide IsOrder, LifetimesOk, Apart, ReleasesOk, SlotsArePeak, NaiveBytes, Sum;
  }

  /** Sharing a slot means not being alive together. */
  lemma SharedSlot(g: Graph, p: Plan, v: nat, w: nat)
    requires PlanOk(g, p) && SlotOf(p, v).Some? && SlotOf(p, v) == SlotOf(p, w) && v != w
    ensures v < |p.lifetimes| && w < |p.lifetimes| && p.lifetimes[v].Some? && p.lifetimes[w].Some?
    ensures p.lifetimes[v].value.last < p.lifetimes[w].value.first || p.lifetimes[w].value.last < p.lifetimes[v].value.first
  {
    SlotInRange(g, p, v);
    SlotInRange(g, p, w);
    hide IsOrder, LifetimesOk, InBounds, ReleasesOk, SlotsArePeak, NaiveBytes, Sum;
    assert !AliveTogether(p.lifetimes[v], p.lifetimes[w]);
  }

  /** A step touches a value only during its lifetime. */
  lemma TouchedAlive(g: Graph, p: Plan, j: nat, v: nat)
    requires Consistent(g) && OneOutput(g) && PlanOk(g, p) && j < |p.order| && p.order[j] < |g.nodes| && SlotOf(p, v).Some? && Touches(g, p, j, v)
    ensures v < |p.lifetimes| && p.lifetimes[v].Some? && p.lifetimes[v].value.first <= j <= p.lifetimes[v].value.last
  {
    SlotInRange(g, p, v);
    OutputFacts(g, p, j);
    hide IsOrder, Apart, InBounds, ReleasesOk, SlotsArePeak, NaiveBytes, Sum;
    if OutputOf(g, p, j) != v {
      InputNeeded(g, p, j, v);
    }
  }

  // ---- The run ----

  /** Each slot's occupant is the latest value produced in it before step `k`. */
  ghost predicate Occupied(g: Graph, p: Plan, occupants: seq<Option<nat>>, k: nat) {
    && |occupants| == |p.capacities|
    && (forall s :: 0 <= s < |occupants| && occupants[s].Some? ==> OccupiedBy(p, occupants[s].value, s, k))
    && (forall v: nat :: ProducedIn(p, v, k) ==> LatestIn(p, occupants, v))
  }

  ghost predicate OccupiedBy(p: Plan, v: nat, s: nat, k: nat) {
    SlotOf(p, v) == Some(s) && ProducedIn(p, v, k)
  }

  ghost predicate ProducedIn(p: Plan, v: nat, k: nat) {
    SlotOf(p, v).Some? && v < |p.lifetimes| && p.lifetimes[v].Some? && p.lifetimes[v].value.first < k
  }

  ghost predicate LatestIn(p: Plan, occupants: seq<Option<nat>>, v: nat)
    requires SlotOf(p, v).Some? && v < |p.lifetimes| && p.lifetimes[v].Some?
  {
    var s := SlotOf(p, v).value;
    && s < |occupants| && occupants[s].Some? && occupants[s].value < |p.lifetimes| && p.lifetimes[occupants[s].value].Some?
    && p.lifetimes[v].value.first <= p.lifetimes[occupants[s].value].value.first
  }

  lemma OccupyStep(g: Graph, p: Plan, occupants: seq<Option<nat>>, k: nat)
    requires Consistent(g) && OneOutput(g) && PlanOk(g, p) && k < |p.order| && p.order[k] < |g.nodes| && Occupied(g, p, occupants, k)
    ensures var o := OutputOf(g, p, k);
      SlotOf(p, o).Some? && SlotOf(p, o).value < |occupants| && Occupied(g, p, occupants[SlotOf(p, o).value := Some(o)], k + 1)
  {
    OutputFacts(g, p, k);
    hide PlanOk, Consistent;
    var o := OutputOf(g, p, k);
    var slot := SlotOf(p, o).value;
    var next := occupants[slot := Some(o)];
    forall v: nat | ProducedIn(p, v, k + 1) ensures LatestIn(p, next, v) {
      if p.lifetimes[v].value.first == k {
        OnlyOutput(g, p, k, v);
      } else {
        assert ProducedIn(p, v, k) && LatestIn(p, occupants, v);
      }
    }
    forall s | 0 <= s < |next| && next[s].Some? ensures OccupiedBy(p, next[s].value, s, k + 1) {
      if s != slot {
        assert OccupiedBy(p, occupants[s].value, s, k);
      }
    }
  }

  lemma OnlyOutput(g: Graph, p: Plan, k: nat, v: nat)
    requires Consistent(g) && OneOutput(g) && PlanOk(g, p) && k < |p.order| && p.order[k] < |g.nodes|
    requires v < |p.lifetimes| && p.lifetimes[v].Some? && p.lifetimes[v].value.first == k
    ensures v == OutputOf(g, p, k)
  {
    PlanSizes(g, p);
    ProducedAt(g, p, k, v);
    hide PlanOk, Consistent;
    assert |g.nodes[p.order[k]].outputs| == 1;
  }

  lemma PlanSizes(g: Graph, p: Plan)
    requires PlanOk(g, p)
    ensures |p.lifetimes| == |g.values|
  {
    hide IsOrder, Apart, InBounds, ReleasesOk, SlotsArePeak, NaiveBytes, Sum;
  }

  /** Waiting for the previous occupant's last step covers every conflicting step, and is always possible. */
  lemma WaitCovers(g: Graph, p: Plan, occupants: seq<Option<nat>>, k: nat)
    requires Consistent(g) && OneOutput(g) && PlanOk(g, p) && k < |p.order| && (forall x :: 0 <= x < |p.order| ==> p.order[x] < |g.nodes|)
    requires Occupied(g, p, occupants, k)
    ensures var o := OutputOf(g, p, k);
      && SlotOf(p, o).Some? && SlotOf(p, o).value < |occupants|
      && var previous := occupants[SlotOf(p, o).value];
      && (previous.Some? ==> previous.value < |p.lifetimes| && p.lifetimes[previous.value].Some? && p.lifetimes[previous.value].value.last < k)
      && forall j :: 0 <= j < k && Conflicts(g, p, j, k) ==> previous.Some? && j <= p.lifetimes[previous.value].value.last
  {
    OutputFacts(g, p, k);
    hide PlanOk, Consistent, Touches;
    var o := OutputOf(g, p, k);
    var s := SlotOf(p, o).value;
    var previous := occupants[s];
    if previous.Some? {
      assert OccupiedBy(p, previous.value, s, k);
      SharedSlot(g, p, previous.value, o);
    }
    forall j | 0 <= j < k && Conflicts(g, p, j, k) ensures previous.Some? && j <= p.lifetimes[previous.value].value.last {
      var v: nat :| v != o && SlotOf(p, v) == SlotOf(p, o) && Touches(g, p, j, v);
      TouchedAlive(g, p, j, v);
      assert ProducedIn(p, v, k);
      assert LatestIn(p, occupants, v);
      assert OccupiedBy(p, previous.value, s, k);
      if v != previous.value {
        SharedSlot(g, p, v, previous.value);
        AliveSpan(g, p, previous.value);
      }
    }
  }

  lemma AliveSpan(g: Graph, p: Plan, v: nat)
    requires PlanOk(g, p) && v < |p.lifetimes| && p.lifetimes[v].Some?
    ensures p.lifetimes[v].value.first <= p.lifetimes[v].value.last
  {
    PlanSizes(g, p);
    PlanFacts(g, p, v);
    hide PlanOk;
  }

  /** Before step `k` every wait so far was enough and stayed within what had been submitted. */
  ghost predicate Ordered(g: Graph, p: Plan, waits: seq<nat>)
    requires |waits| <= |p.order|
  {
    && (forall k :: 0 <= k < |waits| ==> waits[k] <= k)
    && (forall j, k :: 0 <= j < k < |waits| && Conflicts(g, p, j, k) ==> j < waits[k])
  }

  /** A step waits longer than the one before it only for an earlier occupant of the slot it overwrites, and only up to
      that value's last use. */
  ghost predicate WaitNeeded(g: Graph, p: Plan, waits: seq<nat>, k: nat)
    requires k < |waits| <= |p.order|
  {
    var before := if k == 0 then 0 else waits[k - 1];
    && before <= waits[k]
    && (before < waits[k] ==> exists v: nat :: SameSlot(g, p, k, v) && waits[k] == p.lifetimes[v].value.last + 1)
  }

  /** `v` was produced before step `k`, in the slot of what step `k` produces. */
  ghost predicate SameSlot(g: Graph, p: Plan, k: nat, v: nat)
    requires k < |p.order|
  {
    && v < |p.lifetimes| && p.lifetimes[v].Some? && p.lifetimes[v].value.first < k && v < |p.allocations| && p.allocations[v].Some?
    && p.order[k] < |g.nodes| && g.nodes[p.order[k]].outputs != []
    && var out := g.nodes[p.order[k]].outputs[0];
    out < |p.allocations| && p.allocations[out].Some? && p.allocations[v].value.slot == p.allocations[out].value.slot
  }

  lemma OccupantThere(g: Graph, p: Plan, occupants: seq<Option<nat>>, k: nat, slot: nat)
    requires Occupied(g, p, occupants, k) && k < |p.order| && p.order[k] < |g.nodes| && g.nodes[p.order[k]].outputs != []
    requires var out := g.nodes[p.order[k]].outputs[0]; out < |p.allocations| && p.allocations[out].Some? && p.allocations[out].value.slot == slot < |occupants|
    ensures occupants[slot].Some? ==> SameSlot(g, p, k, occupants[slot].value)
  {
    if occupants[slot].Some? {
      assert OccupiedBy(p, occupants[slot].value, slot, k);
    }
  }

  /** Submits every node in order. `waits[k]` completions have been waited for when step `k` is submitted: never more than
      were submitted, always every earlier step that wrote or read what step `k` overwrites, and no longer than that. */
  method RunAsync(g: Graph, p: Plan) returns (waits: seq<nat>, waited: nat)
    requires Consistent(g) && OneOutput(g) && PlanOk(g, p)
    ensures |waits| == |p.order| && Ordered(g, p, waits) && waited == |p.order|
    ensures forall k :: 0 <= k < |waits| ==> WaitNeeded(g, p, waits, k)
  {
    hide Consistent, PlanOk, Conflicts, Occupied, OneOutput, SameSlot;
    OrderInRange(g, p);
    waits, waited := [], 0;
    var submitted := 0;
    var occupants: seq<Option<nat>> := seq(|p.capacities|, _ => None);
    NobodyThere(g, p, occupants);
    while submitted < |p.order|
      invariant submitted <= |p.order| && |waits| == submitted && waited <= submitted
      invariant Occupied(g, p, occupants, submitted) && Ordered(g, p, waits) && waited == (if waits == [] then 0 else waits[|waits| - 1])
      invariant forall k :: 0 <= k < |waits| ==> WaitNeeded(g, p, waits, k)
    {
      var k := submitted;
      OutputName(g, p, k);
      var out := g.nodes[p.order[k]].outputs[0];
      WaitCovers(g, p, occupants, k);
      var slot := p.allocations[out].value.slot;
      var previous := occupants[slot];
      OccupantThere(g, p, occupants, k, slot);
      ghost var before, earlier := waited, waits;
      if previous.Some? {
        var end := p.lifetimes[previous.value].value.last + 1;
        while waited < end
          invariant before <= waited <= submitted && (waited > before ==> waited <= end)
        {
          waited := waited + 1;
        }
      }
      OccupyStep(g, p, occupants, k);
      waits := waits + [waited];
      forall x | 0 <= x < |waits| ensures WaitNeeded(g, p, waits, x) {
        if x < k {
          assert WaitNeeded(g, p, earlier, x);
        }
      }
      occupants := occupants[slot := Some(out)];
      submitted := submitted + 1;
    }
    while waited < submitted
      invariant waited <= submitted
    {
      waited := waited + 1;
    }
  }

  lemma NobodyThere(g: Graph, p: Plan, occupants: seq<Option<nat>>)
    requires |occupants| == |p.capacities| && forall s :: 0 <= s < |occupants| ==> occupants[s].None?
    ensures Occupied(g, p, occupants, 0)
  {
  }
}
