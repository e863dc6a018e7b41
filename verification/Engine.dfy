/** Engine (miniprefix/src/engine/engine.cpp): FIFO admission, decode-first batching, chunked prefill, prefix reuse,
    cancellation, capacity errors and fatal failure, over one runner. */
module ServingEngine {
  import opened Prelude
  import opened PageKeys
  import opened CausalModel
  import opened KvSpec
  import opened KvManager
  import opened KvRunner
  import opened Decoding
  import opened Scheduler
  import opened EngineSpec
  import opened EngineSteps
  import opened EngineService

  class Engine {
    const runner: Runner
    const schedule: SchedulerConfig
    const context: nat
    var waiting: seq<Job>
    var active: seq<Job>
    var seen: set<RequestId>
    var events: seq<Event>
    var failed: bool
    /** Input tokens of the last step. */
    var prefillTokens: nat
    var decodeTokens: nat
    /** Every event ever emitted, and every request ever accepted. */
    ghost var log: seq<Event>
    /** How much of the log has been polled. */
    ghost var polledCount: nat
    ghost var requests: map<RequestId, Request>

    ghost function Footprint(): set<object> {
      {this} + runner.Footprint()
    }

    ghost function Terms(): Setting {
      Setting(runner.model, runner.kv.cfg, context, runner.reliable)
    }

    ghost predicate Wired()
      reads this, runner.keys, runner.values, runner.Footprint()
    {
      SettingOk(Terms()) && SchedulerOk(schedule) && runner.Valid() && this !in runner.Footprint()
    }

    /** The promises about requests and events; the queue holds exactly the events not polled yet. */
    ghost predicate Recorded()
      reads this
    {
      && Ledger(Terms(), waiting + active, log, requests) && seen == requests.Keys
      && Unpolled(events, log, polledCount)
    }

    /** Inside a step: finished jobs may still be listed. */
    ghost predicate Busy()
      reads this, runner.keys, runner.values, runner.Footprint()
    {
      Wired() && Recorded() && !failed && RunnerSide(Terms(), waiting, active, runner.View(), runner.kv.reservations)
    }

    ghost predicate Valid()
      reads this, runner.keys, runner.values, runner.Footprint()
    {
      if failed then Wired() && Recorded() && waiting == [] && active == [] && !runner.reliable
      else Busy() && NoneFinished(active)
    }

    lemma ModelLogits()
      requires Valid()
      ensures HasLogits(runner.model)
    {
      hide Runner.Valid, Runner.View, Unpolled, Ledger, RunnerSide, NoneFinished, Logits;
      runner.LogitsKnown();
    }

    constructor (runner: Runner, schedule: SchedulerConfig, context: nat)
      requires runner.Valid() && SchedulerOk(schedule) && 1 <= context <= runner.kv.cfg.context && ConfigOk(runner.kv.cfg)
      requires runner.View() == map[] && runner.kv.reservations == map[]
      ensures Valid() && !failed && waiting == active == [] && requests == map[] && log == [] && events == [] && polledCount == 0
      ensures this.runner == runner && this.schedule == schedule && this.context == context
    {
      hide Runner.Valid, Runner.View, Ledger, RunnerSide;
      this.runner, this.schedule, this.context := runner, schedule, context;
      waiting, active, seen, events, failed := [], [], {}, [], false;
      prefillTokens, decodeTokens := 0, 0;
      log, requests, polledCount := [], map[], 0;
      new;
      StartOk(Terms());
      assert waiting + active == [];
      assert this !in runner.Footprint();
      assert SettingOk(Terms()) && Recorded() && runner.Valid() && runner.View() == map[];
    }

    method Submit(r: Request) returns (reply: Reply<()>)
      requires Valid()
      modifies this
      ensures Valid() && log == old(log) && active == old(active) && failed == old(failed) && events == old(events) && polledCount == old(polledCount)
      ensures reply.Value? <==>
        && !failed && r.id != "" && r.id !in old(requests) && r.prompt != [] && r.maxNew >= 1 && |r.prompt| + r.maxNew <= context
        && (forall i :: 0 <= i < |r.prompt| ==> 0 <= r.prompt[i] < runner.kv.cfg.vocabulary)
        && (r.eos.Some? ==> 0 <= r.eos.value < runner.kv.cfg.vocabulary)
      ensures reply.Value? <==> !failed && RequestOk(Terms(), r) && r.id !in old(requests)
      ensures if reply.Value? then requests == old(requests)[r.id := r] && waiting == old(waiting) + [Job(r, 0, [], false, false)]
              else requests == old(requests) && waiting == old(waiting)
    {
      hide Runner.Valid, Runner.View, Unpolled, Ledger, RunnerSide;
      if failed {
        return Thrown(Fault);
      }
      if r.id == "" || r.id in seen || r.prompt == [] || r.maxNew < 1 || |r.prompt| + r.maxNew > context {
        return Thrown(Invalid);
      }
      var ok := TokensValid(r.prompt, runner.kv.cfg.vocabulary);
      if !ok || (r.eos.Some? && !(0 <= r.eos.value < runner.kv.cfg.vocabulary)) {
        return Thrown(Invalid);
      }
      SubmitOk(Terms(), waiting, active, log, requests, r, runner.View(), runner.kv.reservations);
      waiting, seen := waiting + [Job(r, 0, [], false, false)], seen + {r.id};
      requests := requests[r.id := r];
      return Value(());
    }

    // ---- One step ----

    /** Gives back what a job holds in the runner; a failing backend changes nothing. */
    method ReleaseJob(id: RequestId, resident: bool) returns (ok: bool)
      requires runner.Valid() && (resident <==> id in runner.View())
      modifies runner.Footprint()
      ensures runner.Valid() && (!ok ==> !runner.reliable)
      ensures ok ==> runner.View() == old(runner.View()) - {id} && runner.kv.reservations == old(runner.kv.reservations) - {id}
      ensures !ok ==> runner.View() == old(runner.View()) && runner.kv.reservations == old(runner.kv.reservations)
      ensures runner.kv.prefix.View() == old(runner.kv.prefix.View())
    {
      hide Runner.Valid, Runner.View;
      if resident {
        var released := runner.Release(id);
        if released.Thrown? {
          return false;
        }
      }
      runner.ReleaseReservation(id);
      ok := true;
    }

    /** Unprefilled prompt tokens plus outputs still to come. */
    ghost function WorkLeft(): nat
      reads this
    {
      TotalWork(waiting + active)
    }

    /** Admits waiting requests in order while there are slots; one that can never fit ends with an error. It stops only
        when nobody waits, the batch is full, or the first in line does not fit beside the promises already made. */
    method Admit() returns (progressed: bool)
      requires Busy() && NoneFinished(active)
      modifies Footprint()
      ensures Busy() && NoneFinished(active) && requests == old(requests) && polledCount == old(polledCount)
      ensures WorkLeft() <= old(WorkLeft()) && (active == [] && old(waiting) != [] ==> WorkLeft() < old(WorkLeft()))
      ensures progressed <==> |waiting| < |old(waiting)|
      ensures |active| >= |old(active)| && |waiting| <= |old(waiting)| && (active == [] && old(waiting) != [] ==> progressed)
      ensures old(waiting) == [] ==> active == old(active)
      ensures IsTail(waiting, old(waiting)) && old(active) <= active
      ensures Extends(old(log), log) && prefillTokens == old(prefillTokens) && decodeTokens == old(decodeTokens)
      ensures |active| <= schedule.maxBatch || |active| == |old(active)|
      ensures waiting == [] || |active| >= schedule.maxBatch || MustWait(Terms(), waiting, active)
      ensures active == old(active) + Admissible(Terms(), old(waiting)[..|old(waiting)| - |waiting|])
    {
      hide Runner.Valid, Runner.View, Unpolled, Ledger, RunnerSide, TotalWork, RequestOk, Pages, TooBig, NoneFinished, Extends, IsTail, MustWait, Admissible;
      LogUnchanged(log);
      WholeTail(waiting);
      NothingPopped(Terms(), waiting, active);
      var slots: nat := AdmissionCount(schedule, |active|, |waiting|);
      progressed := false;
      ghost var total, n := WorkLeft(), |active|;
      while slots > 0 && waiting != []
        invariant n == |old(active)| && Busy() && NoneFinished(active) && requests == old(requests) && polledCount == old(polledCount)
        invariant Extends(old(log), log) && prefillTokens == old(prefillTokens) && decodeTokens == old(decodeTokens)
        invariant old(waiting) == [] ==> active == old(active)
        invariant IsTail(waiting, old(waiting)) && old(active) <= active && |waiting| <= |old(waiting)|
        invariant active == old(active) + Admissible(Terms(), old(waiting)[..|old(waiting)| - |waiting|])
        invariant WorkLeft() <= total && |waiting| <= |old(waiting)| && progressed == (|waiting| < |old(waiting)|)
        invariant active == [] && |waiting| < |old(waiting)| ==> WorkLeft() < total
        invariant active == [] && old(waiting) != [] ==> slots > 0
        invariant |active| + slots >= schedule.maxBatch || slots >= |waiting|
        invariant n <= |active| && (if n < schedule.maxBatch then |active| + slots <= schedule.maxBatch else slots == 0 && |active| == n)
        decreases |waiting|
      {
        ghost var before := log;
        ghost var queue, jobs := waiting, active;
        TailHead(waiting, old(waiting));
        AdmissibleStep(Terms(), old(waiting), |old(waiting)| - |waiting|, old(active));
        var admitted, popped := AdmitHead();
        ExtendsTransitive(old(log), before, log);
        StillFifo(old(waiting), queue, waiting, old(active), jobs, active);
        if !popped {
          break;
        }
        progressed := true;
        slots := if admitted then slots - 1 else slots;
      }
    }

    /** The first waiting request can never fit: it ends with an error. */
    method RejectHead(ghost view: map<RequestId, seq<Token>>, ghost reservations: map<RequestId, nat>)
      requires Busy() && waiting != [] && TooBig(Terms(), waiting[0].request) && waiting[0].request.id !in runner.kv.reservations
      requires view == runner.View() && reservations == runner.kv.reservations
      modifies Footprint()
      ensures Busy() && requests == old(requests) && polledCount == old(polledCount) && active == old(active) && waiting == old(waiting)[1..] && WorkLeft() < old(WorkLeft())
      ensures log == old(log) + [Event(old(waiting)[0].request.id, None, Some(Errored))]
      ensures Extends(old(log), log) && prefillTokens == old(prefillTokens) && decodeTokens == old(decodeTokens)
    {
      hide Runner.Valid, Runner.View, Unpolled, Ledger, RunnerSide, TotalWork, TooBig, Extends;
      var id := waiting[0].request.id;
      RejectOk(Terms(), waiting, active, log, requests, view, reservations);
      runner.ReleaseReservation(id);
      assert runner.kv.reservations == reservations;
      var event := Event(id, None, Some(Errored));
      LogUnchanged(log);
      UnpolledSnoc(events, log, polledCount, event);
      ExtendsSnoc(log, log, event);
      waiting, events, log := waiting[1..], events + [event], log + [event];
    }

    /** Tries the first waiting request: it is admitted, ends because it can never fit, or has to wait for others. */
    method AdmitHead() returns (admitted: bool, popped: bool)
      requires Busy() && NoneFinished(active) && waiting != []
      modifies Footprint()
      ensures Busy() && NoneFinished(active) && requests == old(requests) && polledCount == old(polledCount)
      ensures !popped ==> !admitted && waiting == old(waiting) && active == old(active)
      ensures popped ==> waiting == old(waiting)[1..]
      ensures admitted ==> active == old(active) + [old(waiting)[0]] && WorkLeft() == old(WorkLeft())
      ensures popped && !admitted ==> active == old(active) && WorkLeft() < old(WorkLeft())
      ensures !popped ==> old(active) != []
      ensures popped <==> !MustWait(Terms(), old(waiting), old(active))
      ensures popped ==> (admitted <==> !TooBig(Terms(), old(waiting)[0].request))
      ensures log == if popped && !admitted then old(log) + [Event(old(waiting)[0].request.id, None, Some(Errored))] else old(log)
      ensures !popped ==> runner.kv.reservations == old(runner.kv.reservations)
      ensures Extends(old(log), log) && prefillTokens == old(prefillTokens) && decodeTokens == old(decodeTokens)
    {
      hide Runner.Valid, Runner.View, Unpolled, Ledger, RunnerSide, TotalWork, RequestOk, Pages, TooBig, Extends, NoneFinished, PageCount;
      LogUnchanged(log);
      var job := waiting[0];
      var tokens := |job.request.prompt| + job.request.maxNew - 1;
      ghost var view, reservations := runner.View(), runner.kv.reservations;
      HeadReady(Terms(), waiting, active, log, requests, view, reservations);
      ResidentsReserved(Terms(), waiting, active, view, reservations);
      ActivePromised(Terms(), waiting, active, log, requests, view, reservations);
      var admission := runner.ReserveRequest(job.request.id, tokens);
      assert admission.Value?;
      if admission.value == Wait && active != [] {
        return false, false;
      }
      if admission.value != Ready {
        RejectHead(view, reservations);
        return false, true;
      }
      AdmitOk(Terms(), waiting, active, log, requests, view, reservations);
      WaitingAt(Terms(), waiting, active, view, reservations, 0);
      NoneFinishedSnoc(active, job);
      active, waiting := active + [job], waiting[1..];
      return true, true;
    }

    /** Makes an active job resident with the longest cached prefix of its prompt; neither call can fail here. */
    method RestorePrefix(i: nat)
      requires Busy() && i < |active| && !active[i].finished && !active[i].resident
      modifies Footprint()
      ensures Busy() && Untouched(old(waiting), old(log), old(requests), old(polledCount)) && |active| == |old(active)|
      ensures prefillTokens == old(prefillTokens) && decodeTokens == old(decodeTokens)
      ensures var j := old(active)[i];
        && active == old(active)[i := active[i]] && active[i].request == j.request && active[i].output == j.output
        && active[i].resident && !active[i].finished
        && active[i].prefilled == CachedPrefix(runner.kv.cfg, old(runner.kv.prefix.View()).entries.Keys, j.request.prompt)
      ensures JobWork(active[i]) <= JobWork(old(active)[i]) && WorkLeft() + JobWork(old(active)[i]) == old(WorkLeft()) + JobWork(active[i])
    {
      hide Runner.Valid, Runner.View, Unpolled, Ledger, RunnerSide, TotalWork, Admitted, ActiveOk, JobWork, SameElsewhere, CachedPrefix;
      var job := active[i];
      var id, prompt := job.request.id, job.request.prompt;
      ghost var view, reservations := runner.View(), runner.kv.reservations;
      ActiveAt(Terms(), waiting, active, view, reservations, i);
      RestoreReady(Terms(), job, view, reservations);
      var created := runner.Create(id);
      var reused := runner.ReusePrefix(id, prompt);
      assert created.Value? && reused.Value?;
      var restored := job.(resident := true, prefilled := reused.value);
      RestoredOk(Terms(), job, view, reservations, reused.value, runner.View());
      ActiveUpdate(Terms(), waiting, active, log, requests, view, reservations, i, restored, None, runner.View(), reservations);
      active := active[i := restored];
    }

    /** Nothing but the active jobs and the runner changed. */
    ghost predicate Untouched(waiting: seq<Job>, log: seq<Event>, requests: map<RequestId, Request>, polledCount: nat)
      reads this
    {
      this.waiting == waiting && this.log == log && this.requests == requests && this.polledCount == polledCount
    }

    /** The next token of job `i`, whose whole history is in the cache: delivered, and the job ended if it is the last. */
    method Deliver(i: nat, token: nat, ghost view: map<RequestId, seq<Token>>) returns (ok: bool)
      requires Wired() && Recorded() && !failed && i < |active| && !active[i].finished && active[i].resident
      requires RunnerSide(Terms(), waiting, active, view, runner.kv.reservations)
      requires Completes(Terms(), active[i], token) && runner.View() == view[active[i].request.id := active[i].request.prompt + active[i].output]
      modifies Footprint()
      ensures runner.kv.prefix.View() == old(runner.kv.prefix.View())
      ensures ok ==> var j := old(active)[i]; log == old(log) + [Event(j.request.id, Some(token), FinishOf(j, token))]
      ensures Wired() && Recorded() && !failed && waiting == old(waiting) && requests == old(requests) && polledCount == old(polledCount)
      ensures |active| == |old(active)| && active == old(active)[i := active[i]] && active[i].request == old(active)[i].request
      ensures prefillTokens == old(prefillTokens) && decodeTokens == old(decodeTokens)
      ensures Extends(old(log), log) && (ok ==> Busy() && WorkLeft() < old(WorkLeft()))
      ensures !ok ==> !runner.reliable
    {
      hide Runner.Valid, Runner.View, Unpolled, Ledger, RunnerSide, TotalWork, ActiveOk, JobWork, SameElsewhere, Settled, Completes, Extends;
      LogUnchanged(log);
      var job := active[i];
      var r := job.request;
      ghost var reservations := runner.kv.reservations;
      ActiveAt(Terms(), waiting, active, view, reservations, i);
      DeliverOk(Terms(), job, view, reservations, token);
      var finish := FinishOf(job, token);
      var next := job.(prefilled := |r.prompt|, output := job.output + [token]);
      if finish.Some? {
        var released := ReleaseJob(r.id, true);
        if !released {
          return false;
        }
        GoneElsewhere(view, runner.View(), r.id, r.prompt + job.output);
        GoneElsewhere(reservations, runner.kv.reservations, r.id, 0);
        next := next.(resident := false, finished := true);
      }
      var event := Event(r.id, Some(token), finish);
      ExtendsSnoc(log, log, event);
      ActiveUpdate(Terms(), waiting, active, log, requests, view, reservations, i, next, Some(event), runner.View(), runner.kv.reservations);
      UnpolledSnoc(events, log, polledCount, event);
      active, events, log := active[i := next], events + [event], log + [event];
      ok := true;
    }

    /** Ends an active job without a token. */
    method End(i: nat, reason: FinishReason) returns (ok: bool)
      requires Busy() && i < |active| && !active[i].finished && (reason == Cancelled || (reason == Errored && !runner.reliable))
      modifies Footprint()
      ensures Wired() && Recorded() && !failed && waiting == old(waiting) && requests == old(requests) && polledCount == old(polledCount)
      ensures prefillTokens == old(prefillTokens) && decodeTokens == old(decodeTokens)
      ensures ok ==>
        && Busy() && WorkLeft() < old(WorkLeft()) && log == old(log) + [Event(old(active)[i].request.id, None, Some(reason))]
        && active == old(active)[i := old(active)[i].(resident := false, finished := true)]
      ensures !ok ==> !runner.reliable && Busy() && active == old(active) && log == old(log) && events == old(events)
    {
      hide Runner.Valid, Runner.View, Unpolled, Ledger, RunnerSide, TotalWork, ActiveOk, JobWork, SameElsewhere, Settled;
      var job := active[i];
      var id := job.request.id;
      ghost var view, reservations := runner.View(), runner.kv.reservations;
      ActiveAt(Terms(), waiting, active, view, reservations, i);
      ActiveFacts(Terms(), job, view, reservations);
      var released := ReleaseJob(id, job.resident);
      if !released {
        return false;
      }
      var next := job.(resident := false, finished := true);
      var event := Event(id, None, Some(reason));
      GoneElsewhere(view, runner.View(), id, []);
      GoneElsewhere(reservations, runner.kv.reservations, id, 0);
      EndSettled(Terms(), waiting, active, log, requests, i, reason);
      ActiveUpdate(Terms(), waiting, active, log, requests, view, reservations, i, next, Some(event), runner.View(), runner.kv.reservations);
      UnpolledSnoc(events, log, polledCount, event);
      active, events, log := active[i := next], events + [event], log + [event];
      ok := true;
    }

    /** Appends the input of a resident job and, once its prompt is complete, delivers a token. */
    method Feed(i: nat, input: seq<Token>) returns (ok: bool)
      requires Busy() && i < |active| && !active[i].finished && active[i].resident && IsInput(active[i], input)
      modifies Footprint()
      ensures Wired() && Recorded() && !failed && waiting == old(waiting) && requests == old(requests) && polledCount == old(polledCount)
      ensures |active| == |old(active)| && active == old(active)[i := active[i]] && active[i].request == old(active)[i].request
      ensures prefillTokens + decodeTokens <= old(prefillTokens + decodeTokens) + |input|
      ensures runner.reliable ==> prefillTokens + decodeTokens == old(prefillTokens + decodeTokens) + |input|
      ensures ok && |log| > |old(log)| && log[|log| - 1].token.Some? ==>
        Cached(runner.kv.cfg, runner.kv.prefix.View().entries.Keys, old(active)[i].request.prompt + old(active)[i].output)
      ensures Extends(old(log), log) && (ok ==> Busy() && WorkLeft() < old(WorkLeft()))
      ensures !ok ==> !runner.reliable
    {
      hide Runner.Valid, Runner.View, Unpolled, Ledger, RunnerSide, TotalWork, ActiveOk, JobWork, SameElsewhere, Settled, Completes, Admitted, Logits, Argmax, IsInput, Opens, EvictsLeast, KeepsRecent;
      var job := active[i];
      var r := job.request;
      ghost var view, reservations := runner.View(), runner.kv.reservations;
      ActiveAt(Terms(), waiting, active, view, reservations, i);
      ActiveFacts(Terms(), job, view, reservations);
      InputReady(Terms(), job, view, reservations, input);
      var logits := runner.Append(r.id, input);
      if logits.Thrown? {
        if logits.error == Capacity {
          ok := End(i, Errored);
          return;
        }
        return false;
      }
      var prefilling := job.output == [];
      if prefilling {
        prefillTokens := prefillTokens + |input|;
      } else {
        decodeTokens := decodeTokens + |input|;
      }
      var prefilled := if prefilling then job.prefilled + |input| else job.prefilled;
      if prefilled < |r.prompt| {
        var next := job.(prefilled := prefilled);
        PrefillOk(Terms(), job, view, reservations, input, runner.View());
        ActiveUpdate(Terms(), waiting, active, log, requests, view, reservations, i, next, None, runner.View(), reservations);
        active := active[i := next];
        return true;
      }
      var cached := runner.CachePrefix(r.id);
      assert cached.Value?;
      var token := MaxElement(logits.value);
      SampledOk(Terms(), job, view, reservations, input, token, logits.value);
      ok := Deliver(i, token, view);
    }

    /** One scheduled request: restore its prefix if new, take its share of the budget, feed it. */
    method Advance(i: nat, phase: Phase, plan: SchedulePlan) returns (ok: bool)
      requires Busy() && i < |active| && !active[i].finished && phase == PhaseOf(active[i])
      requires plan.remaining > 0 && plan.chunk > 0 && plan !in Footprint()
      modifies Footprint(), plan
      ensures Wired() && Recorded() && !failed && waiting == old(waiting) && requests == old(requests) && polledCount == old(polledCount)
      ensures |active| == |old(active)| && active == old(active)[i := active[i]] && active[i].request == old(active)[i].request
      ensures ok ==> active[i].finished || Grew(old(active)[i], active[i])
      ensures plan.remaining < old(plan.remaining) && prefillTokens + decodeTokens + plan.remaining <= old(prefillTokens + decodeTokens + plan.remaining)
      ensures runner.reliable ==> prefillTokens + decodeTokens + plan.remaining == old(prefillTokens + decodeTokens + plan.remaining)
      ensures Extends(old(log), log) && (ok ==> Busy() && WorkLeft() < old(WorkLeft()))
      ensures !ok ==> !runner.reliable
    {
      hide Runner.Valid, Runner.View, Unpolled, Ledger, RunnerSide, TotalWork, JobWork, ActiveOk, CachedPrefix, Cached, Extends, Grew;
      if !active[i].resident {
        RestorePrefix(i);
      }
      var job := active[i];
      ActiveAt(Terms(), waiting, active, runner.View(), runner.kv.reservations, i);
      ActiveFacts(Terms(), job, runner.View(), runner.kv.reservations);
      var count := plan.TakeInput(phase, |job.request.prompt| - job.prefilled);
      var input: seq<Token>;
      if phase == Decode {
        input := [job.output[|job.output| - 1]];
      } else {
        input := job.request.prompt[job.prefilled..job.prefilled + count.value];
      }
      ok := Feed(i, input);
      if ok {
        LessWork(waiting, old(active), active, i);
      }
    }

    /** Serves the active jobs in decode-first order until the budget is spent, and no sooner. */
    method RunPlan() returns (ok: bool, ghost served: seq<Scheduler.Work>)
      requires Busy() && NoneFinished(active) && active != [] && prefillTokens == decodeTokens == 0
      modifies Footprint()
      ensures Wired() && Recorded() && !failed && waiting == old(waiting) && requests == old(requests) && polledCount == old(polledCount)
      ensures prefillTokens + decodeTokens <= schedule.tokenBudget && served != [] && served <= DecodeFirst(PhaseSeq(old(active)))
      ensures Extends(old(log), log) && (ok ==> Busy() && WorkLeft() < old(WorkLeft()))
      ensures runner.reliable ==> served == DecodeFirst(PhaseSeq(old(active))) || prefillTokens + decodeTokens == schedule.tokenBudget
      ensures ok ==>
        var order := DecodeFirst(PhaseSeq(old(active)));
        |served| <= |order| && ServedTo(order, |served|, active, old(active)) && StillFresh(order, |served|, active, old(active))
      ensures !ok ==> !runner.reliable
    {
      hide Runner.Valid, Runner.View, Unpolled, Ledger, RunnerSide, TotalWork, Extends, DecodeFirst, PhaseSeq, NoneFinished, StillFresh, ServedTo, Grew;
      served := [];
      var phases := PhasesOf(active);
      var plan := new SchedulePlan(phases, schedule);
      ghost var first := active;
      StartFresh(plan.order, active);
      NoneServed(active);
      LogUnchanged(log);
      var k := 0;
      while k < |plan.order| && plan.remaining > 0
        invariant 0 <= k <= |plan.order| && Busy() && waiting == old(waiting) && requests == old(requests) && polledCount == old(polledCount)
        invariant served == plan.order[..k] && StillFresh(plan.order, k, active, first) && ServedTo(plan.order, k, active, first)
        invariant prefillTokens + decodeTokens + plan.remaining <= schedule.tokenBudget
        invariant runner.reliable ==> prefillTokens + decodeTokens + plan.remaining == schedule.tokenBudget
        invariant Extends(old(log), log) && (if k == 0 then WorkLeft() == old(WorkLeft()) && plan.remaining > 0 else WorkLeft() < old(WorkLeft()))
      {
        ghost var before, jobs := log, active;
        served := served + [plan.order[k]];
        assert served == plan.order[..k + 1];
        FreshAt(plan.order, k, active, first);
        ok := Advance(plan.order[k].index, plan.order[k].phase, plan);
        ExtendsTransitive(old(log), before, log);
        if !ok {
          return false, served;
        }
        ServedMore(plan.order, k, jobs, active, first);
        FreshStep(plan.order, k, jobs, active, first);
        k := k + 1;
      }
      OrderNonempty(first);
      assert k == |plan.order| ==> served == plan.order;
      ok := true;
    }

    /** Forgets the finished active jobs. */
    method RemoveFinished()
      requires Busy()
      modifies this
      ensures Busy() && NoneFinished(active) && waiting == old(waiting) && WorkLeft() == old(WorkLeft())
      ensures log == old(log) && events == old(events) && requests == old(requests) && polledCount == old(polledCount) && active == Unfinished(old(active))
      ensures prefillTokens == old(prefillTokens) && decodeTokens == old(decodeTokens)
    {
      hide Runner.Valid, Runner.View, Unpolled, Ledger, RunnerSide, TotalWork;
      RemoveOk(Terms(), waiting, active, log, requests, runner.View(), runner.kv.reservations);
      active := KeepUnfinished(active);
    }

    /** The terminal event of job number `k` of both lists. */
    method EmitError(id: RequestId, ghost jobs: seq<Job>, ghost k: nat)
      requires k < |jobs| && !jobs[k].finished && jobs[k].request.id == id && jobs == waiting + active && !runner.reliable
      requires Wired() && Recorded()
      modifies Footprint()
      ensures Wired() && Ledger(Terms(), Finish(jobs, k), log, requests) && seen == requests.Keys && Unpolled(events, log, polledCount)
      ensures failed == old(failed) && requests == old(requests) && polledCount == old(polledCount) && waiting == old(waiting) && active == old(active) && Extends(old(log), log)
      ensures prefillTokens == old(prefillTokens) && decodeTokens == old(decodeTokens) && log == old(log) + [Event(id, None, Some(Errored))]
    {
      hide Runner.Valid, Runner.View, Unpolled, Ledger, TotalWork, Extends, Finish;
      LogUnchanged(log);
      runner.ReleaseReservation(id);
      FailOk(Terms(), jobs, log, requests, k);
      var event := Event(id, None, Some(Errored));
      ExtendsSnoc(old(log), log, event);
      UnpolledSnoc(events, log, polledCount, event);
      events, log := events + [event], log + [event];
    }

    /** Ends every job of one list with an error; the other list is left alone. */
    method FailActive()
      requires Wired() && Recorded() && !runner.reliable
      modifies Footprint()
      ensures Wired() && Recorded() && failed == old(failed) && requests == old(requests) && polledCount == old(polledCount) && waiting == old(waiting) && Extends(old(log), log)
      ensures prefillTokens == old(prefillTokens) && decodeTokens == old(decodeTokens) && AllDone(active)
      ensures log == old(log) + Errors(old(active))
    {
      hide Runner.Valid, Runner.View, Unpolled, Ledger, TotalWork, Extends, Finish, Errors;
      LogUnchanged(log);
      NoErrors(active, log);
      var i := 0;
      while i < |active|
        invariant i <= |active| && Wired() && Recorded() && failed == old(failed) && requests == old(requests) && polledCount == old(polledCount) && Extends(old(log), log)
        invariant prefillTokens == old(prefillTokens) && decodeTokens == old(decodeTokens) && waiting == old(waiting)
        invariant forall x :: 0 <= x < i ==> active[x].finished
        invariant |active| == |old(active)| && active[i..] == old(active)[i..] && log == old(log) + Errors(old(active)[..i])
      {
        ErrorsStep(old(active), active, i, old(log));
        if !active[i].finished {
          ghost var before := log;
          FinishWithin(waiting, active, i);
          EmitError(active[i].request.id, waiting + active, |waiting| + i);
          ExtendsTransitive(old(log), before, log);
          FinishRest(active, i);
          active := Finish(active, i);
        }
        i := i + 1;
      }
      assert old(active)[..i] == old(active);
    }

    method FailWaiting()
      requires Wired() && Recorded() && !runner.reliable
      modifies Footprint()
      ensures Wired() && Recorded() && failed == old(failed) && requests == old(requests) && polledCount == old(polledCount) && active == old(active) && Extends(old(log), log)
      ensures prefillTokens == old(prefillTokens) && decodeTokens == old(decodeTokens) && AllDone(waiting)
      ensures log == old(log) + Errors(old(waiting))
    {
      hide Runner.Valid, Runner.View, Unpolled, Ledger, TotalWork, Extends, Finish, Errors;
      LogUnchanged(log);
      NoErrors(waiting, log);
      var i := 0;
      while i < |waiting|
        invariant i <= |waiting| && Wired() && Recorded() && failed == old(failed) && requests == old(requests) && polledCount == old(polledCount) && Extends(old(log), log)
        invariant prefillTokens == old(prefillTokens) && decodeTokens == old(decodeTokens) && active == old(active)
        invariant forall x :: 0 <= x < i ==> waiting[x].finished
        invariant |waiting| == |old(waiting)| && waiting[i..] == old(waiting)[i..] && log == old(log) + Errors(old(waiting)[..i])
      {
        ErrorsStep(old(waiting), waiting, i, old(log));
        if !waiting[i].finished {
          ghost var before := log;
          FinishWithin(waiting, active, i);
          EmitError(waiting[i].request.id, waiting + active, i);
          ExtendsTransitive(old(log), before, log);
          FinishRest(waiting, i);
          waiting := Finish(waiting, i);
        }
        i := i + 1;
      }
      assert old(waiting)[..i] == old(waiting);
    }

    /** Fatal failure: poisons the engine, clears the runner and ends every unfinished request with one error event. */
    method Fail()
      requires Wired() && Recorded() && !failed && !runner.reliable
      modifies Footprint()
      ensures Valid() && failed && requests == old(requests) && polledCount == old(polledCount) && Extends(old(log), log)
      ensures log == old(log) + Errors(old(active)) + Errors(old(waiting))
      ensures prefillTokens == old(prefillTokens) && decodeTokens == old(decodeTokens)
    {
      hide Runner.Valid, Runner.View, Unpolled, Ledger, TotalWork, Extends, Errors;
      failed := true;
      var cleared := runner.Clear();
      FailActive();
      ghost var before := log;
      FailWaiting();
      ExtendsTransitive(old(log), before, log);
      AllFinished(Terms(), waiting, active, log, requests);
      waiting, active := [], [];
      assert waiting + active == [];
    }

    /** One iteration: admit, serve, retire. The batch is the active jobs and the admissible ones popped from the queue;
        popping stops only for an empty queue, a full batch, or a head that does not fit beside the batch. The batch is
        served in decode-first order, all of it unless the budget is spent. */
    method Step() returns (r: Reply<bool>, ghost served: seq<Scheduler.Work>)
      requires Valid()
      modifies Footprint()
      ensures Valid() && requests == old(requests) && polledCount == old(polledCount) && Extends(old(log), log)
      ensures old(failed) ==> r == Thrown(Fault) && failed && log == old(log)
      ensures !old(failed) ==> r == Value(old(waiting) != [] || old(active) != [])
      ensures !old(failed) && (old(waiting) != [] || old(active) != []) ==> WorkLeft() < old(WorkLeft())
      ensures prefillTokens + decodeTokens <= schedule.tokenBudget
      ensures !failed ==> |waiting| <= |old(waiting)| && waiting == old(waiting)[|old(waiting)| - |waiting|..]
      ensures !failed ==>
        var batch := old(active) + Admissible(Terms(), old(waiting)[..|old(waiting)| - |waiting|]);
        && (waiting == [] || |batch| >= schedule.maxBatch || MustWait(Terms(), waiting, batch))
        && (|batch| <= schedule.maxBatch || batch == old(active))
        && Service(batch, served, active, log)
        && (runner.reliable ==> |served| == |batch| || prefillTokens + decodeTokens == schedule.tokenBudget)
    {
      hide Runner.Valid, Runner.View, Unpolled, Ledger, RunnerSide, TotalWork, Extends, NoneFinished, Admissible, MustWait, Service;
      served := [];
      LogUnchanged(log);
      prefillTokens, decodeTokens := 0, 0;
      if failed {
        return Thrown(Fault), served;
      }
      assert Busy() && NoneFinished(active);
      hide Wired, Recorded;
      var progressed := Admit();
      if active == [] {
        NobodyServed(active, log);
        return Value(progressed), served;
      }
      ghost var before := log;
      served := ServeActive();
      ExtendsTransitive(old(log), before, log);
      return Value(true), served;
    }

    /** Serves the active jobs and retires the finished ones; a backend failure is fatal to all. */
    method ServeActive() returns (ghost served: seq<Scheduler.Work>)
      requires Busy() && NoneFinished(active) && active != [] && prefillTokens == decodeTokens == 0
      modifies Footprint()
      ensures Valid() && requests == old(requests) && polledCount == old(polledCount) && Extends(old(log), log)
      ensures WorkLeft() < old(WorkLeft()) && prefillTokens + decodeTokens <= schedule.tokenBudget
      ensures !failed ==> waiting == old(waiting) && Service(old(active), served, active, log)
      ensures !failed && runner.reliable ==> |served| == |old(active)| || prefillTokens + decodeTokens == schedule.tokenBudget
    {
      hide Runner.Valid, Runner.View, Unpolled, Ledger, RunnerSide, TotalWork, Extends, NoneFinished, ServedTo, StillFresh, DecodeFirst, Unfinished, Service;
      ActiveHasWork(Terms(), waiting, active, log, requests, runner.View(), runner.kv.reservations);
      var ok;
      ok, served := RunPlan();
      if ok {
        ServiceOk(Terms(), waiting, active, log, requests, served, old(active));
        RemoveFinished();
      } else {
        ghost var before := log;
        Fail();
        ExtendsTransitive(old(log), before, log);
        NoJobsNoWork();
        assert waiting + active == [];
      }
    }

    // ---- Cancellation and shutdown ----

    /** Ends a waiting request. */
    method CancelWaiting(i: nat)
      requires Busy() && NoneFinished(active) && i < |waiting|
      modifies Footprint()
      ensures Busy() && requests == old(requests) && polledCount == old(polledCount) && active == old(active) && waiting == old(waiting)[..i] + old(waiting)[i + 1..]
      ensures log == old(log) + [Event(old(waiting)[i].request.id, None, Some(Cancelled))]
    {
      hide Runner.Valid, Runner.View, Unpolled, Ledger, RunnerSide, TotalWork;
      ghost var view, reservations := runner.View(), runner.kv.reservations;
      var id := waiting[i].request.id;
      WaitingUnreserved(Terms(), waiting, active, log, requests, i, view, reservations);
      WaitingEnds(Terms(), waiting, active, log, requests, i, Cancelled, view, reservations);
      runner.ReleaseReservation(id);
      assert runner.kv.reservations == reservations;
      var event := Event(id, None, Some(Cancelled));
      UnpolledSnoc(events, log, polledCount, event);
      waiting, events, log := waiting[..i] + waiting[i + 1..], events + [event], log + [event];
    }

    /** Cancels a live request, wherever it is; anything else is refused. */
    method Cancel(id: RequestId) returns (r: Reply<()>)
      requires Valid()
      modifies Footprint()
      ensures Valid() && requests == old(requests) && polledCount == old(polledCount) && failed == old(failed)
      ensures r == Thrown(Invalid) <==> id !in Live(old(waiting + active))
      ensures r.Value? ==> log == old(log) + [Event(id, None, Some(Cancelled))] && id !in Live(waiting + active)
      ensures r.Thrown? ==> log == old(log) && waiting == old(waiting) && active == old(active)
      ensures r == Thrown(Fault) ==> !runner.reliable
    {
      hide Runner.Valid, Runner.View, Unpolled, Ledger, RunnerSide, TotalWork;
      var w := FindJob(waiting, id);
      var a := FindJob(active, id);
      FoundLive(waiting, active, id, w, a, failed);
      if w.Some? {
        CancelWaiting(w.value);
        EndedNotLive(Terms(), waiting + active, old(log), log, requests, id);
        return Value(());
      }
      if a.Some? {
        var ok := End(a.value, Cancelled);
        if !ok {
          return Thrown(Fault);
        }
        RemoveFinished();
        EndedNotLive(Terms(), waiting + active, old(log), log, requests, id);
        return Value(());
      }
      return Thrown(Invalid);
    }

    /** Cancels everything and clears the runner; a backend failure leaves the jobs not reached yet. */
    method Shutdown() returns (r: Reply<()>)
      requires Valid()
      modifies Footprint()
      ensures Valid() && requests == old(requests) && polledCount == old(polledCount) && failed == old(failed) && old(log) <= log
      ensures r.Value? ==> waiting == [] && active == [] && runner.View() == map[] && |runner.kv.pool.free| == runner.kv.cfg.maxBlocks
      ensures r.Thrown? ==> !runner.reliable
    {
      hide Runner.Valid, Runner.View, Unpolled, Ledger, RunnerSide, TotalWork, Extends, NoneFinished, Live;
      if !failed {
        var ok := CancelActive();
        if !ok {
          return Thrown(Fault);
        }
        while waiting != []
          invariant Busy() && active == [] && requests == old(requests) && polledCount == old(polledCount) && old(log) <= log
          decreases |waiting|
        {
          ghost var before := log;
          CancelWaiting(0);
          PrefixTransitive(old(log), before, log);
        }
      }
      r := runner.Clear();
      if !failed {
        NobodyLeft(Terms(), runner.View(), runner.kv.reservations);
      }
    }

    method CancelActive() returns (ok: bool)
      requires Busy() && NoneFinished(active)
      modifies Footprint()
      ensures Busy() && NoneFinished(active) && requests == old(requests) && polledCount == old(polledCount) && old(log) <= log
      ensures ok ==> active == []
      ensures !ok ==> !runner.reliable
    {
      hide Runner.Valid, Runner.View, Unpolled, Ledger, RunnerSide, TotalWork, Unfinished;
      while active != []
        invariant Busy() && NoneFinished(active) && requests == old(requests) && polledCount == old(polledCount) && old(log) <= log
        decreases |active|
      {
        ghost var before := log;
        ok := End(0, Cancelled);
        PrefixTransitive(old(log), before, log);
        if !ok {
          return false;
        }
        FirstGone(active);
        RemoveFinished();
      }
      ok := true;
    }

    method PollEvents() returns (polled: seq<Event>)
      requires Valid()
      modifies this
      ensures Valid() && polled == old(events) == old(log)[old(polledCount)..] && polledCount == |log| && events == [] && log == old(log) && requests == old(requests)
      ensures waiting == old(waiting) && active == old(active) && failed == old(failed)
    {
      hide Runner.Valid, Runner.View, Unpolled, Ledger, RunnerSide;
      AllPolled(events, log, polledCount);
      polled := events;
      events, polledCount := [], |log|;
    }
  }

  // ---- Whole runs ----

  /** Any sequence of calls on an engine. What was polled on the way and what is still queued are together all events
      since the start, in order. The log has only grown, no request is forgotten, none has an event after its terminal one, and every request ever accepted is in exactly one of waiting, active and ended, with tokens that are a front
      part of its standalone greedy decoding. */
  method RunCommands(e: Engine, commands: seq<Command>) returns (delivered: seq<Event>)
    requires e.Valid()
    modifies e.Footprint()
    ensures e.Valid() && old(e.log) <= e.log && Quiet(e.log)
    ensures delivered + e.events == old(e.events) + e.log[|old(e.log)|..]
    ensures forall id :: id in old(e.requests) ==> id in e.requests && e.requests[id] == old(e.requests)[id]
    ensures forall id :: id in e.requests ==>
      && Settled(e.Terms(), e.requests[id], Tokens(e.log, id), Ending(e.log, id))
      && InOnePlace(e.waiting, e.active, e.log, id)
      && GreedyTokens(e.runner.model, e.requests[id], Tokens(e.log, id))
  {
    hide Runner.Valid, Runner.View, Unpolled, Ledger, RunnerSide, TotalWork, Extends, NoneFinished, Live, Settled, Quiet, InOnePlace, RequestOk, GreedyTokens, HasLogits;
    delivered := [];
    QueueFacts(e.events, e.log, e.polledCount);
    for i := 0 to |commands|
      invariant e.Valid() && old(e.log) <= e.log
      invariant old(e.polledCount) <= e.polledCount <= |e.log| && delivered == e.log[old(e.polledCount)..e.polledCount]
      invariant forall id :: id in old(e.requests) ==> id in e.requests && e.requests[id] == old(e.requests)[id]
    {
      ghost var before, count := e.log, e.polledCount;
      match commands[i] {
        case Submitting(r) => var submitted := e.Submit(r);
        case Stepping =>
          var stepped, _ := e.Step();
          ExtendsPrefix(before, e.log);
        case Cancelling(id) => var cancelled := e.Cancel(id);
        case Polling =>
          var polled := e.PollEvents();
          delivered := delivered + polled;
        case ShuttingDown => var stopped := e.Shutdown();
      }
      PrefixTransitive(old(e.log), before, e.log);
      SamePolled(before, e.log, old(e.polledCount), count);
    }
    QueueFacts(e.events, e.log, e.polledCount);
    DeliveredSplit(old(e.log), e.log, old(e.polledCount), e.polledCount);
    LedgerQuiet(e.Terms(), e.waiting + e.active, e.log, e.requests);
    e.ModelLogits();
    forall id | id in e.requests
      ensures Settled(e.Terms(), e.requests[id], Tokens(e.log, id), Ending(e.log, id)) && InOnePlace(e.waiting, e.active, e.log, id)
      ensures GreedyTokens(e.runner.model, e.requests[id], Tokens(e.log, id))
    {
      SoFarGreedy(e.Terms(), e.waiting + e.active, e.log, e.requests, id);
      Somewhere(e.Terms(), e.waiting, e.active, e.log, e.requests, id);
    }
  }

  /** Steps until no request is left; every step reduces the work, so this ends. */
  method Drain(e: Engine)
    requires e.Valid()
    modifies e.Footprint()
    ensures e.Valid() && e.requests == old(e.requests) && e.polledCount == old(e.polledCount) && Extends(old(e.log), e.log)
    ensures e.waiting == [] && e.active == []
  {
    hide Runner.Valid, Runner.View, Unpolled, Ledger, RunnerSide, TotalWork, Extends, NoneFinished;
    LogUnchanged(e.log);
    while e.waiting != [] || e.active != []
      invariant e.Valid() && e.requests == old(e.requests) && e.polledCount == old(e.polledCount) && Extends(old(e.log), e.log)
      decreases e.WorkLeft()
    {
      ghost var before := e.log;
      var r, _ := e.Step();
      ExtendsTransitive(old(e.log), before, e.log);
    }
  }

  /** End to end: whatever the batch size, token budget, chunk size, pool and cache, a reliable backend answers every
      accepted request as if it were alone, or refuses it when it can never fit. */
  method ServeAll(runner: Runner, schedule: SchedulerConfig, context: nat, batch: seq<Request>) returns (e: Engine)
    requires runner.Valid() && SchedulerOk(schedule) && 1 <= context <= runner.kv.cfg.context && ConfigOk(runner.kv.cfg)
    requires runner.View() == map[] && runner.kv.reservations == map[] && runner.reliable
    modifies runner.Footprint()
    ensures e.Valid() && e.waiting == [] && e.active == [] && e.events == e.log && Quiet(e.log)
    ensures e.requests == Accepted(Setting(runner.model, runner.kv.cfg, context, true), batch)
    ensures forall id :: id in e.requests ==>
      && Served(Setting(runner.model, runner.kv.cfg, context, true), e.requests[id], Tokens(e.log, id), Ending(e.log, id))
      && Answered(Setting(runner.model, runner.kv.cfg, context, true), e.requests[id], Tokens(e.log, id), Ending(e.log, id))
  {
    hide Runner.Valid, Runner.View, Unpolled, Ledger, RunnerSide, TotalWork, Extends, NoneFinished, RequestOk, Served, Quiet, Answered, HasLogits;
    e := new Engine(runner, schedule, context);
    ghost var st := e.Terms();
    LogUnchanged(e.log);
    for i := 0 to |batch|
      invariant e.Valid() && !e.failed && e.log == [] && e.polledCount == 0 && e.requests == Accepted(st, batch[..i])
      invariant e.runner == runner && fresh(e) && e.Terms() == st
    {
      assert batch[..i + 1][..i] == batch[..i];
      var reply := e.Submit(batch[i]);
    }
    assert batch[..|batch|] == batch;
    Drain(e);
    QueueFacts(e.events, e.log, e.polledCount);
    LedgerQuiet(st, e.waiting + e.active, e.log, e.requests);
    assert e.waiting + e.active == [];
    e.ModelLogits();
    forall id | id in e.requests
      ensures Served(st, e.requests[id], Tokens(e.log, id), Ending(e.log, id)) && Answered(st, e.requests[id], Tokens(e.log, id), Ending(e.log, id))
    {
      EveryoneServed(st, e.log, e.requests, id);
      EveryoneAnswered(st, e.log, e.requests, id);
    }
  }
}
