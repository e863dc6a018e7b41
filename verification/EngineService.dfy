/** What one engine step admits and serves (miniprefix/src/engine/engine.cpp:61-111). */
module EngineService {
  import opened Prelude
  import opened CausalModel
  import opened PageKeys
  import opened KvSpec
  import opened Decoding
  import opened Scheduler
  import opened EngineSpec
  import opened EngineSteps

  // ---- Admission ----

  /** Worst-case pages of all jobs together. */
  function PagesOf(st: Setting, jobs: seq<Job>): nat {
    if jobs == [] then 0 else PagesOf(st, jobs[..|jobs| - 1]) + Pages(st, jobs[|jobs| - 1].request)
  }

  /** The jobs that can fit the pool at all, in order. */
  function Admissible(st: Setting, jobs: seq<Job>): seq<Job> {
    if jobs == [] then []
    else
      var j := jobs[|jobs| - 1];
      Admissible(st, jobs[..|jobs| - 1]) + if TooBig(st, j.request) then [] else [j]
  }

  /** The first in line does not fit the pool beside the worst cases of the active jobs. */
  ghost predicate MustWait(st: Setting, waiting: seq<Job>, active: seq<Job>) {
    && waiting != [] && !TooBig(st, waiting[0].request)
    && PagesOf(st, active) + Pages(st, waiting[0].request) > st.cfg.maxBlocks
  }

  /** Exactly the jobs have reservations, each its worst case. */
  ghost predicate Promised(st: Setting, jobs: seq<Job>, reservations: map<RequestId, nat>) {
    && Distinct(jobs)
    && (forall i :: 0 <= i < |jobs| ==> jobs[i].request.id in reservations && reservations[jobs[i].request.id] == Pages(st, jobs[i].request))
    && (forall id :: id in reservations ==> exists i :: 0 <= i < |jobs| && jobs[i].request.id == id)
  }

  lemma {:induction false} PromisedPages(st: Setting, jobs: seq<Job>, reservations: map<RequestId, nat>)
    requires Promised(st, jobs, reservations)
    ensures Total(reservations) == PagesOf(st, jobs)
    decreases |jobs|
  {
    hide Pages, Total;
    if jobs == [] {
      assert reservations.Keys == {};
      NoPromise(reservations);
    } else {
      var n := |jobs| - 1;
      var id := jobs[n].request.id;
      TotalRemove(reservations, id);
      PromisedFront(st, jobs, reservations);
      PromisedPages(st, jobs[..n], reservations - {id});
    }
  }

  lemma NoPromise(reservations: map<RequestId, nat>)
    requires reservations.Keys == {}
    ensures Total(reservations) == 0
  {
  }

  lemma PromisedFront(st: Setting, jobs: seq<Job>, reservations: map<RequestId, nat>)
    requires jobs != [] && Promised(st, jobs, reservations)
    ensures Promised(st, jobs[..|jobs| - 1], reservations - {jobs[|jobs| - 1].request.id})
  {
    hide Pages;
    var n := |jobs| - 1;
    var front, fewer := jobs[..n], reservations - {jobs[n].request.id};
    forall id | id in fewer ensures exists i :: 0 <= i < |front| && front[i].request.id == id {
      var i :| 0 <= i < |jobs| && jobs[i].request.id == id;
      assert front[i].request.id == id;
    }
  }

  /** The engine's reservations are exactly those of its active jobs. */
  lemma ActivePromised(st: Setting, waiting: seq<Job>, active: seq<Job>, log: seq<Event>, requests: map<RequestId, Request>,
                       view: map<RequestId, seq<Token>>, reservations: map<RequestId, nat>)
    requires Ledger(st, waiting + active, log, requests) && RunnerSide(st, waiting, active, view, reservations) && NoneFinished(active)
    ensures Total(reservations) == PagesOf(st, active)
  {
    DistinctJobs(st, waiting + active, log, requests);
    DistinctTail(waiting, active);
    hide Ledger, Pages, Total, Distinct, RequestOk, TooBig, Progress, ValidTokens, Stored;
    forall i | 0 <= i < |active| ensures active[i].request.id in reservations && reservations[active[i].request.id] == Pages(st, active[i].request) {
      assert ActiveOk(st, active[i], view, reservations);
    }
    forall id | id in reservations ensures exists i :: 0 <= i < |active| && active[i].request.id == id {
      assert id in Live(active);
      var j :| j in active && j.request.id == id;
    }
    PromisedPages(st, active, reservations);
  }

  /** Popping one more from the queue. */
  lemma AdmissibleStep(st: Setting, queue: seq<Job>, n: nat, jobs: seq<Job>)
    requires n < |queue|
    ensures jobs + Admissible(st, queue[..n + 1]) == jobs + Admissible(st, queue[..n]) + if TooBig(st, queue[n].request) then [] else [queue[n]]
  {
    assert queue[..n + 1][..n] == queue[..n];
  }

  lemma NothingPopped(st: Setting, queue: seq<Job>, jobs: seq<Job>)
    ensures jobs + Admissible(st, queue[..0]) == jobs
  {
  }

  /** The head of what is left of a queue. */
  lemma TailHead(rest: seq<Job>, queue: seq<Job>)
    requires IsTail(rest, queue) && rest != []
    ensures rest[0] == queue[|queue| - |rest|]
  {
  }

  // ---- Service ----

  /** More of the prompt is prefilled, or more output delivered. */
  predicate Grew(before: Job, after: Job) {
    after.request == before.request && (after.prefilled > before.prefilled || |after.output| > |before.output|)
  }

  /** Less work means the job ended or grew. */
  lemma LessWork(waiting: seq<Job>, before: seq<Job>, after: seq<Job>, i: nat)
    requires i < |before| == |after| && after == before[i := after[i]] && after[i].request == before[i].request && !before[i].finished
    requires TotalWork(waiting + after) < TotalWork(waiting + before)
    ensures after[i].finished || Grew(before[i], after[i])
  {
    hide TotalWork;
    WorkConcat(waiting, before);
    WorkConcat(waiting, after);
    WorkUpdate(before, i, after[i]);
  }

  /** The first `k` jobs of the order have gone on. */
  ghost predicate ServedTo(order: seq<Scheduler.Work>, k: nat, active: seq<Job>, first: seq<Job>)
    requires k <= |order|
  {
    && |active| == |first| && (forall x :: 0 <= x < |order| ==> order[x].index < |first|)
    && forall x :: 0 <= x < k ==> var i := order[x].index; active[i].request == first[i].request && (active[i].finished || Grew(first[i], active[i]))
  }

  lemma NoneServed(first: seq<Job>)
    ensures ServedTo(DecodeFirst(PhaseSeq(first)), 0, first, first)
  {
    OrderProperties(PhaseSeq(first));
    hide DecodeFirst;
  }

  lemma ServedMore(order: seq<Scheduler.Work>, k: nat, active: seq<Job>, after: seq<Job>, first: seq<Job>)
    requires StillFresh(order, k, active, first) && k < |order| && ServedTo(order, k, active, first)
    requires |after| == |active| && after == active[order[k].index := after[order[k].index]]
    requires var i := order[k].index; after[i].request == active[i].request && (after[i].finished || Grew(active[i], after[i]))
    ensures ServedTo(order, k + 1, after, first)
  {
    OrderProperties(PhaseSeq(first));
    hide DecodeFirst, Grew;
  }

  /** The job has ended, or is still active and has grown. */
  ghost predicate WentOn(j: Job, active: seq<Job>, log: seq<Event>) {
    Ending(log, j.request.id).Some? || exists x :: 0 <= x < |active| && Grew(j, active[x])
  }

  /** After the finished jobs are dropped, every served job has gone on and every other one is as it was. */
  lemma ServedWentOn(st: Setting, waiting: seq<Job>, active: seq<Job>, log: seq<Event>, requests: map<RequestId, Request>,
                     order: seq<Scheduler.Work>, k: nat, first: seq<Job>, x: nat)
    requires Ledger(st, waiting + active, log, requests) && k <= |order| && ServedTo(order, k, active, first) && x < k
    ensures order[x].index < |first| && WentOn(first[order[x].index], Unfinished(active), log)
  {
    var i := order[x].index;
    if active[i].finished {
      hide Grew;
      EndedJob(st, waiting, active, log, requests, i);
    } else {
      hide Ledger, Ending, Unfinished;
      UnfinishedMembers(active);
      assert active[i] in active;
    }
  }

  lemma EndedJob(st: Setting, waiting: seq<Job>, active: seq<Job>, log: seq<Event>, requests: map<RequestId, Request>, i: nat)
    requires Ledger(st, waiting + active, log, requests) && i < |active| && active[i].finished
    ensures Ending(log, active[i].request.id).Some?
  {
    hide Ledger, Ending;
    var jobs, k := waiting + active, |waiting| + i;
    assert jobs[k] == active[i];
    FinishedGone(jobs, k, st, log, requests);
  }

  lemma FinishedGone(jobs: seq<Job>, k: nat, st: Setting, log: seq<Event>, requests: map<RequestId, Request>)
    requires Ledger(st, jobs, log, requests) && k < |jobs| && jobs[k].finished
    ensures Ending(log, jobs[k].request.id).Some?
  {
    hide Settled, Ending, Tokens, RequestOk, Quiet, Live, Distinct;
    assert Known(requests, log, jobs[k]) && Accounted(st, requests, log, Live(jobs), jobs[k].request.id);
    NotLive(jobs, k);
  }

  lemma NotLive(jobs: seq<Job>, k: nat)
    requires Distinct(jobs) && k < |jobs| && jobs[k].finished
    ensures jobs[k].request.id !in Live(jobs)
  {
    forall j | j in jobs && j.request.id == jobs[k].request.id ensures j.finished {
      var y :| 0 <= y < |jobs| && jobs[y] == j;
      DistinctAt(jobs, y, k);
    }
  }

  lemma UnservedKept(order: seq<Scheduler.Work>, k: nat, active: seq<Job>, first: seq<Job>, x: nat)
    requires StillFresh(order, k, active, first) && k <= x < |order|
    ensures order[x].index < |first| && first[order[x].index] in Unfinished(active)
  {
    hide DecodeFirst, Unfinished;
    UnfinishedMembers(active);
    assert active[order[x].index] in active;
  }

  /** A front part of the decode-first order of a batch has gone on; everybody else is as before. */
  ghost predicate Service(batch: seq<Job>, served: seq<Scheduler.Work>, active: seq<Job>, log: seq<Event>) {
    && served <= DecodeFirst(PhaseSeq(batch))
    && (forall x :: 0 <= x < |served| ==> served[x].index < |batch| && WentOn(batch[served[x].index], active, log))
    && forall i :: 0 <= i < |batch| ==> (exists x :: 0 <= x < |served| && served[x].index == i) || batch[i] in active
  }

  lemma NobodyServed(active: seq<Job>, log: seq<Event>)
    requires active == []
    ensures Service(active, [], active, log)
  {
    hide DecodeFirst;
  }

  lemma ServiceOk(st: Setting, waiting: seq<Job>, active: seq<Job>, log: seq<Event>, requests: map<RequestId, Request>,
                  served: seq<Scheduler.Work>, batch: seq<Job>)
    requires Ledger(st, waiting + active, log, requests)
    requires var order := DecodeFirst(PhaseSeq(batch));
      served <= order && ServedTo(order, |served|, active, batch) && StillFresh(order, |served|, active, batch)
    ensures Service(batch, served, Unfinished(active), log)
    ensures served == DecodeFirst(PhaseSeq(batch)) ==> |served| == |batch|
  {
    var order := DecodeFirst(PhaseSeq(batch));
    OrderProperties(PhaseSeq(batch));
    hide Ledger, DecodeFirst, ServedTo, StillFresh, WentOn, Unfinished;
    forall x | 0 <= x < |served| ensures served[x].index < |batch| && WentOn(batch[served[x].index], Unfinished(active), log) {
      ServedWentOn(st, waiting, active, log, requests, order, |served|, batch, x);
    }
    forall i | 0 <= i < |batch| ensures (exists x :: 0 <= x < |served| && served[x].index == i) || batch[i] in Unfinished(active) {
      assert Scheduler.Work(i, PhaseSeq(batch)[i]) in order;
      var x :| 0 <= x < |order| && order[x] == Scheduler.Work(i, PhaseSeq(batch)[i]);
      if x < |served| {
        assert served[x].index == i;
      } else {
        UnservedKept(order, |served|, active, batch, x);
      }
    }
    OrderLength(batch);
  }

  /** The order lists every job once. */
  lemma OrderLength(batch: seq<Job>)
    ensures |DecodeFirst(PhaseSeq(batch))| == |batch|
  {
    var order := DecodeFirst(PhaseSeq(batch));
    OrderProperties(PhaseSeq(batch));
    hide DecodeFirst;
    var indices: seq<nat> := seq(|order|, x requires 0 <= x < |order| => order[x].index);
    forall i | 0 <= i < |batch| ensures i in indices {
      assert Scheduler.Work(i, PhaseSeq(batch)[i]) in order;
      var x :| 0 <= x < |order| && order[x] == Scheduler.Work(i, PhaseSeq(batch)[i]);
      assert indices[x] == i;
    }
    FewDistinct(indices, |batch|);
  }
}
