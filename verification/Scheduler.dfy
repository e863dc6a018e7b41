/** Scheduler (miniprefix/src/scheduler/scheduler.cpp): admission, decode-first order and the token budget of one step. */
module Scheduler {
  import opened Prelude

  datatype Phase = Prefill | Decode
  datatype Work = Work(index: nat, phase: Phase)
  datatype SchedulerConfig = SchedulerConfig(maxBatch: nat, tokenBudget: nat, prefillChunk: nat)

  predicate SchedulerOk(c: SchedulerConfig) {
    c.maxBatch >= 1 && c.tokenBudget >= 1 && c.prefillChunk >= 1
  }

  /** How many waiting requests may join: as many as fit the batch, and no more than there are. */
  function AdmissionCount(c: SchedulerConfig, active: nat, waiting: nat): (n: nat)
    ensures n <= waiting && (active <= c.maxBatch ==> active + n <= c.maxBatch)
    ensures n == 0 <==> waiting == 0 || active >= c.maxBatch
    ensures n < waiting ==> active + n >= c.maxBatch
  {
    if active >= c.maxBatch then 0
    else if waiting < c.maxBatch - active then waiting
    else c.maxBatch - active
  }

  /** The indices of one phase below `n`, in order. */
  function OfPhase(phases: seq<Phase>, phase: Phase, n: nat): (r: seq<Work>)
    requires n <= |phases|
    ensures forall k :: 0 <= k < |r| ==> r[k].index < n && r[k].phase == phase && phases[r[k].index] == phase
  {
    if n == 0 then []
    else OfPhase(phases, phase, n - 1) + if phases[n - 1] == phase then [Work(n - 1, phase)] else []
  }

  function DecodeFirst(phases: seq<Phase>): seq<Work> {
    OfPhase(phases, Decode, |phases|) + OfPhase(phases, Prefill, |phases|)
  }

  lemma {:induction false} OfPhaseProperties(phases: seq<Phase>, phase: Phase, n: nat)
    requires n <= |phases|
    ensures var r := OfPhase(phases, phase, n);
      && (forall i :: 0 <= i < n && phases[i] == phase ==> Work(i, phase) in r)
      && (forall a, b :: 0 <= a < b < |r| ==> r[a].index < r[b].index)
  {
    if n > 0 {
      OfPhaseProperties(phases, phase, n - 1);
    }
  }

  /** The order visits every request exactly once, under its own phase, and every decode before any prefill. */
  lemma OrderProperties(phases: seq<Phase>)
    ensures var order := DecodeFirst(phases);
      && (forall i :: 0 <= i < |phases| ==> Work(i, phases[i]) in order)
      && (forall k :: 0 <= k < |order| ==> order[k].index < |phases| && order[k].phase == phases[order[k].index])
      && (forall a, b :: 0 <= a < b < |order| ==> order[a].index != order[b].index)
      && (forall a, b :: 0 <= a < b < |order| ==> order[b].phase == Decode ==> order[a].phase == Decode)
  {
    OfPhaseProperties(phases, Decode, |phases|);
    OfPhaseProperties(phases, Prefill, |phases|);
  }

  /** One step's order and input budget. */
  class SchedulePlan {
    const order: seq<Work>
    const chunk: nat
    var remaining: nat

    constructor (phases: seq<Phase>, c: SchedulerConfig)
      ensures order == DecodeFirst(phases) && remaining == c.tokenBudget && chunk == c.prefillChunk
    {
      var work: seq<Work> := [];
      for i := 0 to |phases|
        invariant work == OfPhase(phases, Decode, i)
      {
        if phases[i] == Decode {
          work := work + [Work(i, Decode)];
        }
      }
      ghost var decodes := work;
      for i := 0 to |phases|
        invariant work == decodes + OfPhase(phases, Prefill, i)
      {
        if phases[i] == Prefill {
          work := work + [Work(i, Prefill)];
        }
      }
      order, remaining, chunk := work, c.tokenBudget, c.prefillChunk;
    }

    /** Input tokens granted to one request: one for a decode, at most a chunk of the rest for a prefill. */
    method TakeInput(phase: Phase, unprefilled: nat) returns (r: Option<nat>)
      modifies this
      ensures r.None? <==> old(remaining) > 0 && phase == Prefill && unprefilled == 0
      ensures r.None? ==> remaining == old(remaining)
      ensures r.Some? ==> r.value + remaining == old(remaining)
      ensures r.Some? && old(remaining) > 0 && chunk > 0 ==>
        && r.value > 0
        && (if phase == Decode then r.value == 1
            else r.value <= chunk && r.value <= unprefilled && (r.value == chunk || r.value == unprefilled || remaining == 0))
    {
      if remaining == 0 {
        return Some(0);
      }
      if phase == Prefill && unprefilled == 0 {
        return None;
      }
      var count := 1;
      if phase == Prefill {
        count := if unprefilled < chunk then unprefilled else chunk;
        count := if remaining < count then remaining else count;
      }
      remaining := remaining - count;
      return Some(count);
    }
  }
}
