/** What one action of the engine does to its jobs, its log and its promises. */
module EngineSteps {
  import opened Prelude
  import opened PageKeys
  import opened CausalModel
  import opened KvSpec
  import opened KvRunner
  import opened Decoding
  import opened Scheduler
  import opened EngineSpec

  lemma SubmitOk(st: Setting, waiting: seq<Job>, active: seq<Job>, log: seq<Event>, requests: map<RequestId, Request>, r: Request,
                 view: map<RequestId, seq<Token>>, reservations: map<RequestId, nat>)
    requires Ledger(st, waiting + active, log, requests) && RequestOk(st, r) && r.id !in requests
    requires RunnerSide(st, waiting, active, view, reservations)
    ensures var more := waiting + [Job(r, 0, [], false, false)];
      Ledger(st, more + active, log, requests[r.id := r]) && RunnerSide(st, more, active, view, reservations)
  {
    var j := Job(r, 0, [], false, false);
    LedgerSubmit(st, waiting + active, waiting + active + [j], log, requests, r);
    hide Ledger;
    DistinctJobs(st, waiting + active + [j], log, requests[r.id := r]);
    Shuffled(waiting, active, [j], waiting + [j] + active);
    LedgerRearrange(st, waiting + active + [j], waiting + [j] + active, log, requests[r.id := r]);
  }

  lemma StartOk(st: Setting)
    ensures Ledger(st, [], [], map[]) && RunnerSide(st, [], [], map[], map[])
  {
  }

  /** The first waiting request can be reserved for, and waits only for others. */
  lemma HeadReady(st: Setting, waiting: seq<Job>, active: seq<Job>, log: seq<Event>, requests: map<RequestId, Request>,
                  view: map<RequestId, seq<Token>>, reservations: map<RequestId, nat>)
    requires waiting != [] && Ledger(st, waiting + active, log, requests) && RunnerSide(st, waiting, active, view, reservations) && SettingOk(st)
    ensures var r := waiting[0].request;
      && RequestOk(st, r) && r.id !in view && r.id !in reservations && 0 < |r.prompt| + r.maxNew - 1 <= st.cfg.context
      && (active == [] ==> view.Keys + reservations.Keys == {})
      && (TooBig(st, r) <==> Pages(st, r) > st.cfg.maxBlocks)
      && Pages(st, r) == PageCount(|r.prompt| + r.maxNew - 1, st.cfg.blockTokens)
  {
    var jobs := waiting + active;
    var id := waiting[0].request.id;
    assert Known(requests, log, jobs[0]);
    assert Accounted(st, requests, log, Live(jobs), id);
    hide Ledger, Accounted, Known, Settled, ActiveOk, ValidTokens, PageCount;
    assert id !in Live(active) by {
      DistinctJobs(st, jobs, log, requests);
      HeadNotActive(waiting, active);
    }
  }

  /** Every resident sequence has its reservation. */
  lemma ResidentsReserved(st: Setting, waiting: seq<Job>, active: seq<Job>, view: map<RequestId, seq<Token>>, reservations: map<RequestId, nat>)
    requires RunnerSide(st, waiting, active, view, reservations)
    ensures view.Keys <= reservations.Keys
  {
    hide RequestOk, TooBig, Progress, ValidTokens, Pages, Stored;
    forall id | id in view ensures id in reservations {
      var i :| 0 <= i < |active| && !active[i].finished && active[i].request.id == id;
      assert ActiveOk(st, active[i], view, reservations);
    }
  }

  lemma HeadNotActive(waiting: seq<Job>, active: seq<Job>)
    requires waiting != [] && Distinct(waiting + active)
    ensures waiting[0].request.id !in Live(active)
  {
    var jobs := waiting + active;
    forall j | j in active ensures j.request.id != waiting[0].request.id {
      var i :| 0 <= i < |active| && active[i] == j;
      assert jobs[|waiting| + i] == j;
      DistinctAt(jobs, 0, |waiting| + i);
    }
  }

  lemma HeadSplit(waiting: seq<Job>, active: seq<Job>)
    requires waiting != []
    ensures waiting + active == [] + [waiting[0]] + (waiting[1..] + active)
    ensures [] + (waiting[1..] + active) + [waiting[0]] == waiting[1..] + (active + [waiting[0]])
  {
  }

  lemma RejectOk(st: Setting, waiting: seq<Job>, active: seq<Job>, log: seq<Event>, requests: map<RequestId, Request>,
                 view: map<RequestId, seq<Token>>, reservations: map<RequestId, nat>)
    requires waiting != [] && Ledger(st, waiting + active, log, requests) && RunnerSide(st, waiting, active, view, reservations)
    requires TooBig(st, waiting[0].request)
    ensures var id := waiting[0].request.id;
      && Ledger(st, waiting[1..] + active, log + [Event(id, None, Some(Errored))], requests)
      && RunnerSide(st, waiting[1..], active, view, reservations)
      && TotalWork(waiting[1..] + active) < TotalWork(waiting + active)
  {
    hide TooBig, Ledger, RunnerSide, TotalWork;
    WaitingEnds(st, waiting, active, log, requests, 0, Errored, view, reservations);
    assert waiting[..0] + waiting[1..] == waiting[1..];
  }

  /** A waiting request ends without a token. */
  lemma WaitingEnds(st: Setting, waiting: seq<Job>, active: seq<Job>, log: seq<Event>, requests: map<RequestId, Request>, i: nat, reason: FinishReason,
                    view: map<RequestId, seq<Token>>, reservations: map<RequestId, nat>)
    requires i < |waiting| && Ledger(st, waiting + active, log, requests) && RunnerSide(st, waiting, active, view, reservations)
    requires reason == Cancelled || (reason == Errored && (st.reliable ==> TooBig(st, waiting[i].request)))
    ensures var id, rest := waiting[i].request.id, waiting[..i] + waiting[i + 1..];
      && Ledger(st, rest + active, log + [Event(id, None, Some(reason))], requests)
      && RunnerSide(st, rest, active, view, reservations)
      && TotalWork(rest + active) < TotalWork(waiting + active)
  {
    hide Ledger, RunnerSide, TooBig, Settled, Tokens, Ending, TotalWork;
    var jobs, j := waiting + active, waiting[i];
    var e := Event(j.request.id, None, Some(reason));
    WaitingAt(st, waiting, active, view, reservations, i);
    assert jobs[i] == j;
    WaitingWork(st, jobs, log, requests, i);
    EndsQuietly(st, jobs, log, requests, i, reason);
    LedgerUpdate(st, jobs, log, requests, i, j.(finished := true), Some(e));
    var done := jobs[i := j.(finished := true)];
    DropFinished(st, done, log + [e], requests, i);
    WorkUpdate(jobs, i, j.(finished := true));
    var rest := waiting[..i] + waiting[i + 1..];
    assert done[..i] + done[i + 1..] == rest + active;
    RunnerFewerWaiting(st, waiting, active, view, reservations, rest);
  }

  lemma WaitingAt(st: Setting, waiting: seq<Job>, active: seq<Job>, view: map<RequestId, seq<Token>>, reservations: map<RequestId, nat>, i: nat)
    requires RunnerSide(st, waiting, active, view, reservations) && i < |waiting|
    ensures WaitingOk(waiting[i])
  {
    hide ActiveOk, Live;
  }

  lemma RunnerFewerWaiting(st: Setting, waiting: seq<Job>, active: seq<Job>, view: map<RequestId, seq<Token>>, reservations: map<RequestId, nat>, rest: seq<Job>)
    requires RunnerSide(st, waiting, active, view, reservations) && forall j :: j in rest ==> j in waiting
    ensures RunnerSide(st, rest, active, view, reservations)
  {
    forall i | 0 <= i < |rest| ensures WaitingOk(rest[i]) {
      assert rest[i] in waiting;
    }
    hide ActiveOk, Live;
  }

  lemma WaitingWork(st: Setting, jobs: seq<Job>, log: seq<Event>, requests: map<RequestId, Request>, i: nat)
    requires Ledger(st, jobs, log, requests) && i < |jobs|
    ensures RequestOk(st, jobs[i].request)
    ensures WaitingOk(jobs[i]) ==> JobWork(jobs[i]) > 0
  {
    assert Known(requests, log, jobs[i]);
    assert Accounted(st, requests, log, Live(jobs), jobs[i].request.id);
  }

  /** Ending without another token keeps what was delivered. */
  lemma EndsQuietly(st: Setting, jobs: seq<Job>, log: seq<Event>, requests: map<RequestId, Request>, i: nat, reason: FinishReason)
    requires Ledger(st, jobs, log, requests) && i < |jobs|
    requires reason == Cancelled || (reason == Errored && (st.reliable ==> TooBig(st, jobs[i].request)))
    ensures var id := jobs[i].request.id;
      var more := log + [Event(id, None, Some(reason))];
      Settled(st, jobs[i].request, Tokens(more, id), Ending(more, id))
  {
    var id := jobs[i].request.id;
    assert Known(requests, log, jobs[i]);
    assert Accounted(st, requests, log, Live(jobs), id);
    hide Ledger, TooBig, Standalone;
    LogSnoc(log, Event(id, None, Some(reason)), id);
  }

  lemma DropFinished(st: Setting, jobs: seq<Job>, log: seq<Event>, requests: map<RequestId, Request>, i: nat)
    requires Ledger(st, jobs, log, requests) && i < |jobs| && jobs[i].finished
    ensures Ledger(st, jobs[..i] + jobs[i + 1..], log, requests)
    ensures TotalWork(jobs[..i] + jobs[i + 1..]) == TotalWork(jobs)
  {
    hide Ledger, TotalWork, Distinct, JobWork;
    var t := jobs[..i] + jobs[i + 1..];
    DistinctJobs(st, jobs, log, requests);
    DistinctWithout(jobs, i);
    assert jobs == jobs[..i] + [jobs[i]] + jobs[i + 1..];
    assert forall j :: j in jobs && !j.finished ==> j in t;
    LedgerRearrange(st, jobs, t, log, requests);
    WorkConcat(jobs[..i] + [jobs[i]], jobs[i + 1..]);
    WorkConcat(jobs[..i], [jobs[i]]);
    WorkConcat(jobs[..i], jobs[i + 1..]);
    OneJob(jobs[i]);
    NoWork(jobs[i]);
  }

  lemma NoWork(j: Job)
    requires j.finished
    ensures JobWork(j) == 0
  {
  }

  lemma DistinctWithout(jobs: seq<Job>, i: nat)
    requires Distinct(jobs) && i < |jobs|
    ensures Distinct(jobs[..i] + jobs[i + 1..])
  {
    var t := jobs[..i] + jobs[i + 1..];
    forall a, b | 0 <= a < b < |t| ensures t[a].request.id != t[b].request.id {
      assert t[a] == jobs[if a < i then a else a + 1] && t[b] == jobs[if b < i then b else b + 1];
    }
  }

  lemma OneJob(j: Job)
    ensures TotalWork([j]) == JobWork(j)
  {
    assert [j][1..] == [];
  }

  /** The first waiting request becomes active with its worst case reserved. */
  lemma AdmitOk(st: Setting, waiting: seq<Job>, active: seq<Job>, log: seq<Event>, requests: map<RequestId, Request>,
                view: map<RequestId, seq<Token>>, reservations: map<RequestId, nat>)
    requires waiting != [] && Ledger(st, waiting + active, log, requests) && RunnerSide(st, waiting, active, view, reservations) && SettingOk(st)
    requires RequestOk(st, waiting[0].request) && !TooBig(st, waiting[0].request)
    ensures Ledger(st, waiting[1..] + (active + [waiting[0]]), log, requests)
    ensures RunnerSide(st, waiting[1..], active + [waiting[0]], view, reservations[waiting[0].request.id := Pages(st, waiting[0].request)])
    ensures TotalWork(waiting[1..] + (active + [waiting[0]])) == TotalWork(waiting + active)
  {
    var j := waiting[0];
    HeadReady(st, waiting, active, log, requests, view, reservations);
    HeadSplit(waiting, active);
    DistinctJobs(st, waiting + active, log, requests);
    hide Ledger, TooBig, RequestOk, Pages;
    Shuffled([], [j], waiting[1..] + active, [] + (waiting[1..] + active) + [j]);
    LedgerRearrange(st, waiting + active, waiting[1..] + (active + [j]), log, requests);
    AdmitWork(waiting, active);
    HeadNotActive(waiting, active);
    AdmitSide(st, waiting, active, view, reservations);
  }

  lemma AdmitWork(waiting: seq<Job>, active: seq<Job>)
    requires waiting != []
    ensures TotalWork(waiting[1..] + (active + [waiting[0]])) == TotalWork(waiting + active)
  {
    assert waiting == [waiting[0]] + waiting[1..];
    hide TotalWork;
    WorkConcat(waiting[1..], active + [waiting[0]]);
    WorkConcat(active, [waiting[0]]);
    WorkConcat(waiting, active);
    WorkConcat([waiting[0]], waiting[1..]);
  }

  lemma AdmitSide(st: Setting, waiting: seq<Job>, active: seq<Job>, view: map<RequestId, seq<Token>>, reservations: map<RequestId, nat>)
    requires waiting != [] && RunnerSide(st, waiting, active, view, reservations) && SettingOk(st)
    requires RequestOk(st, waiting[0].request) && !TooBig(st, waiting[0].request) && waiting[0].request.id !in Live(active)
    ensures RunnerSide(st, waiting[1..], active + [waiting[0]], view, reservations[waiting[0].request.id := Pages(st, waiting[0].request)])
  {
    hide RequestOk, TooBig, Pages, Progress, Stored, ValidTokens;
    var j := waiting[0];
    var id, pages := j.request.id, Pages(st, j.request);
    var more, t := reservations[id := pages], active + [j];
    assert WaitingOk(j);
    FreshActive(st, j, view, more);
    assert Live(t) == Live(active) + {id} by {
      assert forall x :: x in t <==> x in active || x == j;
    }
    hide ActiveOk;
    forall i | 0 <= i < |t| ensures !t[i].finished ==> ActiveOk(st, t[i], view, more) {
      if i < |active| && !t[i].finished {
        assert active[i] in active;
        assert active[i].request.id in Live(active);
        ActiveFrame(st, active[i], view, reservations, id, view, more);
      }
    }
    hide Live;
  }

  lemma FreshActive(st: Setting, j: Job, view: map<RequestId, seq<Token>>, reservations: map<RequestId, nat>)
    requires WaitingOk(j) && RequestOk(st, j.request) && st.cfg.blockTokens > 0 && !TooBig(st, j.request)
    requires j.request.id !in view && j.request.id in reservations && reservations[j.request.id] == Pages(st, j.request)
    ensures ActiveOk(st, j, view, reservations)
  {
    ProgressStart(st.model, j.request);
    hide Pages, TooBig, Progress;
  }

  // ---- Active jobs ----

  lemma ActiveAt(st: Setting, waiting: seq<Job>, active: seq<Job>, view: map<RequestId, seq<Token>>, reservations: map<RequestId, nat>, i: nat)
    requires RunnerSide(st, waiting, active, view, reservations) && i < |active| && !active[i].finished
    ensures ActiveOk(st, active[i], view, reservations)
  {
    hide ActiveOk, Live;
  }

  /** One active job changes, with at most one event of its own. */
  lemma ActiveUpdate(st: Setting, waiting: seq<Job>, active: seq<Job>, log: seq<Event>, requests: map<RequestId, Request>,
                     view: map<RequestId, seq<Token>>, reservations: map<RequestId, nat>, i: nat, j: Job, e: Option<Event>,
                     view': map<RequestId, seq<Token>>, reservations': map<RequestId, nat>)
    requires Ledger(st, waiting + active, log, requests) && RunnerSide(st, waiting, active, view, reservations)
    requires i < |active| && !active[i].finished && j.request == active[i].request
    requires SameElsewhere(view, view', j.request.id) && SameElsewhere(reservations, reservations', j.request.id)
    requires if j.finished then j.request.id !in view' && j.request.id !in reservations' else ActiveOk(st, j, view', reservations')
    requires e.Some? ==> e.value.id == j.request.id
    requires j.finished <==> e.Some? && e.value.reason.Some?
    requires e.None? ==> j.output == active[i].output
    requires e.Some? ==>
      var out := active[i].output + if e.value.token.Some? then [e.value.token.value] else [];
      Settled(st, j.request, out, e.value.reason) && (!j.finished ==> out == j.output)
    ensures Ledger(st, waiting + active[i := j], if e.Some? then log + [e.value] else log, requests)
    ensures RunnerSide(st, waiting, active[i := j], view', reservations')
    ensures TotalWork(waiting + active[i := j]) + JobWork(active[i]) == TotalWork(waiting + active) + JobWork(j)
  {
    hide Ledger, RunnerSide, ActiveOk, Settled, SameElsewhere, TotalWork, JobWork, Tokens, Ending, Distinct;
    var jobs, k := waiting + active, |waiting| + i;
    assert jobs[k] == active[i];
    assert jobs[k := j] == waiting + active[i := j];
    WorkUpdate(jobs, k, j);
    DeliveredSoFar(st, jobs, log, requests, k);
    if e.Some? {
      LogSnoc(log, e.value, j.request.id);
    }
    LedgerUpdate(st, jobs, log, requests, k, j, e);
    DistinctJobs(st, jobs, log, requests);
    DistinctTail(waiting, active);
    RunnerUpdate(st, waiting, active, view, reservations, i, j, view', reservations');
  }

  function PhaseOf(j: Job): Phase {
    if j.output == [] then Prefill else Decode
  }

  /** The next prompt tokens of a job that has no output yet, or its last output. */
  predicate IsInput(j: Job, input: seq<Token>) {
    if j.output == [] then
      input != [] && j.prefilled + |input| <= |j.request.prompt| && input == j.request.prompt[j.prefilled..j.prefilled + |input|]
    else input == [j.output[|j.output| - 1]]
  }

  /** `token` is the greedy choice after everything the job has. */
  ghost predicate Completes(st: Setting, j: Job, token: nat) {
    token == Sample(st.model, j.request.prompt + j.output) && token < st.cfg.vocabulary
  }

  lemma ActiveFacts(st: Setting, j: Job, view: map<RequestId, seq<Token>>, reservations: map<RequestId, nat>)
    requires ActiveOk(st, j, view, reservations)
    ensures (j.resident <==> j.request.id in view) && j.prefilled <= |j.request.prompt| && (j.output == [] <==> j.prefilled < |j.request.prompt|)
    ensures JobWork(j.(resident := false, finished := true)) == 0 && (!j.finished ==> JobWork(j) > 0)
  {
    hide RequestOk, Pages, TooBig, ValidTokens, Rest, Standalone;
  }

  lemma GoneElsewhere<T>(a: map<RequestId, T>, b: map<RequestId, T>, id: RequestId, v: T)
    requires b == a - {id} || b == a[id := v] - {id}
    ensures SameElsewhere(a, b, id) && id !in b
  {
  }

  lemma EndSettled(st: Setting, waiting: seq<Job>, active: seq<Job>, log: seq<Event>, requests: map<RequestId, Request>, i: nat, reason: FinishReason)
    requires Ledger(st, waiting + active, log, requests) && i < |active| && !active[i].finished
    requires reason == Cancelled || (reason == Errored && !st.reliable)
    ensures Settled(st, active[i].request, active[i].output + [], Some(reason))
  {
    hide Ledger, Standalone, TooBig, Tokens, Ending;
    var jobs := waiting + active;
    assert jobs[|waiting| + i] == active[i];
    DeliveredSoFar(st, jobs, log, requests, |waiting| + i);
    assert active[i].output + [] == active[i].output;
  }

  /** Why the next token is the last one, if it is. */
  function FinishOf(j: Job, token: Token): Option<FinishReason> {
    if j.request.eos == Some(token) then Some(Eos) else if |j.output| + 1 == j.request.maxNew then Some(Length) else None
  }

  /** What the next token does to a job and to its promise. */
  lemma DeliverOk(st: Setting, j: Job, view: map<RequestId, seq<Token>>, reservations: map<RequestId, nat>, token: nat)
    requires ActiveOk(st, j, view, reservations) && j.resident && !j.finished && Completes(st, j, token)
    ensures var r, next := j.request, j.(prefilled := |j.request.prompt|, output := j.output + [token]);
      var finish := FinishOf(j, token);
      && Settled(st, r, j.output + [token], finish)
      && j.request.id in view && SameElsewhere(view, view[r.id := r.prompt + j.output], r.id) && SameElsewhere(reservations, reservations, r.id)
      && (finish.None? ==> ActiveOk(st, next, view[r.id := r.prompt + j.output], reservations))
      && JobWork(next) < JobWork(j) && JobWork(next.(resident := false, finished := true)) == 0
  {
    hide RequestOk, Pages, TooBig, Rest, Standalone, Sample;
    var r := j.request;
    ProgressStep(st.model, r, j.output);
    var next := j.(prefilled := |r.prompt|, output := j.output + [token]);
    assert Stored(next) == r.prompt + j.output;
    if !(r.eos == Some(token) || |j.output| + 1 == r.maxNew) {
      ProgressPrefix(st.model, r, j.output + [token]);
    }
  }

  /** Feeding a job never leaves its reservation. */
  lemma InputReady(st: Setting, j: Job, view: map<RequestId, seq<Token>>, reservations: map<RequestId, nat>, input: seq<Token>)
    requires ActiveOk(st, j, view, reservations) && j.resident && IsInput(j, input) && SettingOk(st)
    ensures j.request.id in view && input != [] && Admitted(st.cfg, view, reservations, j.request.id, input)
    ensures |view[j.request.id]| + |input| == if j.output == [] then j.prefilled + |input| else |j.request.prompt| + |j.output|
    ensures view[j.request.id] + input == if j.output == [] then j.request.prompt[..j.prefilled + |input|] else j.request.prompt + j.output
  {
    hide Rest, Standalone, PageCount;
    var r := j.request;
    var h := view[r.id] + input;
    if j.output == [] {
      assert Stored(j) == r.prompt[..j.prefilled];
      assert h == r.prompt[..j.prefilled + |input|];
    } else {
      assert Stored(j) == r.prompt + j.output[..|j.output| - 1];
      assert h == r.prompt + j.output;
    }
    PageCountMonotone(|h|, |r.prompt| + r.maxNew - 1, st.cfg.blockTokens);
  }

  lemma PrefillOk(st: Setting, j: Job, view: map<RequestId, seq<Token>>, reservations: map<RequestId, nat>, input: seq<Token>, view': map<RequestId, seq<Token>>)
    requires ActiveOk(st, j, view, reservations) && j.resident && !j.finished && IsInput(j, input) && SettingOk(st)
    requires j.output == [] && j.prefilled + |input| < |j.request.prompt| && view' == view[j.request.id := view[j.request.id] + input]
    ensures var next := j.(prefilled := j.prefilled + |input|);
      && ActiveOk(st, next, view', reservations) && JobWork(next) < JobWork(j)
      && SameElsewhere(view, view', j.request.id) && SameElsewhere(reservations, reservations, j.request.id)
  {
    InputReady(st, j, view, reservations, input);
    hide Progress, Pages, RequestOk, TooBig, ValidTokens, Admitted;
    var next := j.(prefilled := j.prefilled + |input|);
    assert Stored(next) == j.request.prompt[..j.prefilled + |input|];
  }

  lemma SampledOk(st: Setting, j: Job, view: map<RequestId, seq<Token>>, reservations: map<RequestId, nat>, input: seq<Token>, token: nat, logits: seq<real>)
    requires ActiveOk(st, j, view, reservations) && j.resident && IsInput(j, input) && SettingOk(st)
    requires input != [] && (j.output == [] ==> j.prefilled + |input| >= |j.request.prompt|)
    requires j.request.id in view && logits == Logits(st.model, view[j.request.id] + input) && |logits| == st.cfg.vocabulary && logits != []
    requires token == Argmax(logits)
    ensures Completes(st, j, token) && view[j.request.id] + input == j.request.prompt + j.output
  {
    InputReady(st, j, view, reservations, input);
    hide ActiveOk, Admitted, Logits, Argmax;
    if j.output == [] {
      assert j.request.prompt[..j.prefilled + |input|] == j.request.prompt + j.output;
    }
  }

  lemma LogUnchanged(log: seq<Event>)
    ensures Extends(log, log)
  {
  }

  lemma WaitingUnreserved(st: Setting, waiting: seq<Job>, active: seq<Job>, log: seq<Event>, requests: map<RequestId, Request>, i: nat,
                          view: map<RequestId, seq<Token>>, reservations: map<RequestId, nat>)
    requires i < |waiting| && Ledger(st, waiting + active, log, requests) && RunnerSide(st, waiting, active, view, reservations)
    ensures waiting[i].request.id !in reservations
  {
    DistinctJobs(st, waiting + active, log, requests);
    hide Ledger, ActiveOk, WaitingOk;
    var jobs := waiting + active;
    forall j | j in active ensures j.request.id != waiting[i].request.id {
      var x :| 0 <= x < |active| && active[x] == j;
      assert jobs[i] == waiting[i] && jobs[|waiting| + x] == j;
      DistinctAt(jobs, i, |waiting| + x);
    }
  }

  method FindJob(jobs: seq<Job>, id: RequestId) returns (r: Option<nat>)
    ensures r.Some? ==> r.value < |jobs| && jobs[r.value].request.id == id && !jobs[r.value].finished
    ensures r.None? <==> id !in Live(jobs)
  {
    for i := 0 to |jobs|
      invariant forall x :: 0 <= x < i ==> jobs[x].request.id != id || jobs[x].finished
    {
      if jobs[i].request.id == id && !jobs[i].finished {
        assert jobs[i] in jobs;
        return Some(i);
      }
    }
    return None;
  }

  lemma FoundLive(waiting: seq<Job>, active: seq<Job>, id: RequestId, w: Option<nat>, a: Option<nat>, failed: bool)
    requires (w.None? <==> id !in Live(waiting)) && (a.None? <==> id !in Live(active))
    requires failed ==> waiting == [] && active == []
    ensures id in Live(waiting + active) <==> w.Some? || a.Some?
    ensures w.Some? || a.Some? ==> !failed
  {
    assert forall j :: j in waiting + active <==> j in waiting || j in active;
  }

  lemma EndedNotLive(st: Setting, jobs: seq<Job>, before: seq<Event>, log: seq<Event>, requests: map<RequestId, Request>, id: RequestId)
    requires Ledger(st, jobs, log, requests) && log == before + [Event(id, None, Some(Cancelled))]
    ensures id !in Live(jobs)
  {
    LogSnoc(before, Event(id, None, Some(Cancelled)), id);
    assert log[|before|].id in requests;
    assert Accounted(st, requests, log, Live(jobs), id);
  }

  lemma NobodyLeft(st: Setting, view: map<RequestId, seq<Token>>, reservations: map<RequestId, nat>)
    ensures view == map[] && reservations == map[] ==> RunnerSide(st, [], [], view, reservations)
  {
  }

  lemma FirstGone(jobs: seq<Job>)
    requires jobs != [] && jobs[0].finished && forall i :: 0 < i < |jobs| ==> !jobs[i].finished
    ensures Unfinished(jobs) == jobs[1..]
  {
    FirstGoneFrom(jobs, |jobs|);
    assert jobs[..|jobs|] == jobs;
  }

  lemma {:induction false} FirstGoneFrom(jobs: seq<Job>, n: nat)
    requires 0 < n <= |jobs| && jobs[0].finished && forall i :: 0 < i < |jobs| ==> !jobs[i].finished
    ensures Unfinished(jobs[..n]) == jobs[1..n]
    decreases n
  {
    assert jobs[..n][..n - 1] == jobs[..n - 1];
    if n > 1 {
      FirstGoneFrom(jobs, n - 1);
    }
  }

  /** The requests a fresh engine accepts, in order: the valid ones with a new id. */
  ghost function Accepted(st: Setting, batch: seq<Request>): map<RequestId, Request> {
    if batch == [] then map[]
    else
      var before := Accepted(st, batch[..|batch| - 1]);
      var r := batch[|batch| - 1];
      if RequestOk(st, r) && r.id !in before then before[r.id := r] else before
  }

  /** How a request that nobody cancelled ends on a reliable backend: refused exactly when its worst case exceeds
      the pool, and otherwise answered with the tokens of standalone greedy decoding. */
  ghost predicate Served(st: Setting, r: Request, out: seq<Token>, ending: Option<FinishReason>) {
    if TooBig(st, r) then out == [] && ending == Some(Errored)
    else out == Standalone(st.model, r) && (ending == Some(Eos) || ending == Some(Length))
  }

  lemma EveryoneServed(st: Setting, log: seq<Event>, requests: map<RequestId, Request>, id: RequestId)
    requires Ledger(st, [], log, requests) && Extends([], log) && st.reliable && id in requests
    ensures Served(st, requests[id], Tokens(log, id), Ending(log, id))
  {
    hide Ledger, TooBig, Standalone, RequestOk, Settled, Tokens, Ending, Extends, Served;
    NotCancelled(log, id);
    EndedSettled(st, log, requests, id);
    SettledServed(st, requests[id], Tokens(log, id), Ending(log, id));
  }

  lemma EndedSettled(st: Setting, log: seq<Event>, requests: map<RequestId, Request>, id: RequestId)
    requires Ledger(st, [], log, requests) && id in requests
    ensures Ending(log, id).Some? && Settled(st, requests[id], Tokens(log, id), Ending(log, id))
  {
    assert Accounted(st, requests, log, Live([]), id);
    hide Settled, Tokens, Ending, RequestOk;
  }

  lemma SettledServed(st: Setting, r: Request, out: seq<Token>, ending: Option<FinishReason>)
    requires Settled(st, r, out, ending) && ending.Some? && ending != Some(Cancelled) && st.reliable
    ensures Served(st, r, out, ending)
  {
    hide TooBig, Standalone;
    var reason := ending.value;
    assert reason == Eos || reason == Length || reason == Errored;
  }

  /** The same spelled out in the request's own terms: refused exactly when prompt and answer, without the last token,
      exceed the pool; otherwise the greedy tokens, up to the end of sequence or the limit. */
  ghost predicate Answered(st: Setting, r: Request, out: seq<Token>, ending: Option<FinishReason>) {
    if |r.prompt| + r.maxNew - 1 > st.cfg.maxBlocks * st.cfg.blockTokens then out == [] && ending == Some(Errored)
    else
      && GreedyTokens(st.model, r, out) && out != []
      && ending == Some(if r.eos == Some(out[|out| - 1]) then Eos else Length) && (ending == Some(Length) ==> |out| == r.maxNew)
  }

  lemma TooBigMeans(st: Setting, r: Request)
    requires SettingOk(st) && RequestOk(st, r)
    ensures TooBig(st, r) <==> |r.prompt| + r.maxNew - 1 > st.cfg.maxBlocks * st.cfg.blockTokens
  {
    hide ValidTokens;
    PageStartsInside(st.cfg.maxBlocks, |r.prompt| + r.maxNew - 1, st.cfg.blockTokens);
    hide PageCount;
  }

  lemma EveryoneAnswered(st: Setting, log: seq<Event>, requests: map<RequestId, Request>, id: RequestId)
    requires Ledger(st, [], log, requests) && Extends([], log) && st.reliable && id in requests && SettingOk(st) && HasLogits(st.model)
    ensures Answered(st, requests[id], Tokens(log, id), Ending(log, id))
  {
    hide Ledger, TooBig, Standalone, RequestOk, Settled, Tokens, Ending, Extends, Served, GreedyTokens, HasLogits, Answered;
    KnownOk(st, [], log, requests, id);
    TooBigMeans(st, requests[id]);
    EveryoneServed(st, log, requests, id);
    EndedSettled(st, log, requests, id);
    ServedAnswered(st, requests[id], Tokens(log, id), Ending(log, id));
  }

  lemma ServedAnswered(st: Setting, r: Request, out: seq<Token>, ending: Option<FinishReason>)
    requires RequestOk(st, r) && HasLogits(st.model) && Served(st, r, out, ending) && Settled(st, r, out, ending)
    requires TooBig(st, r) <==> |r.prompt| + r.maxNew - 1 > st.cfg.maxBlocks * st.cfg.blockTokens
    ensures Answered(st, r, out, ending)
  {
    hide TooBig, Standalone, GreedyTokens, HasLogits, ValidTokens;
    StandaloneMeans(st.model, r, out);
  }

  lemma KnownOk(st: Setting, jobs: seq<Job>, log: seq<Event>, requests: map<RequestId, Request>, id: RequestId)
    requires Ledger(st, jobs, log, requests) && id in requests
    ensures RequestOk(st, requests[id]) && Settled(st, requests[id], Tokens(log, id), Ending(log, id))
  {
    assert Accounted(st, requests, log, Live(jobs), id);
    hide Settled, Tokens, Ending, RequestOk, Live;
  }

  /** Whatever has been delivered so far is greedy. */
  lemma SoFarGreedy(st: Setting, jobs: seq<Job>, log: seq<Event>, requests: map<RequestId, Request>, id: RequestId)
    requires Ledger(st, jobs, log, requests) && id in requests && HasLogits(st.model)
    ensures GreedyTokens(st.model, requests[id], Tokens(log, id))
  {
    hide Ledger, TooBig, Standalone, Tokens, Ending, GreedyTokens, HasLogits, ValidTokens;
    KnownOk(st, jobs, log, requests, id);
    StandaloneMeans(st.model, requests[id], Tokens(log, id));
  }

  lemma LedgerQuiet(st: Setting, jobs: seq<Job>, log: seq<Event>, requests: map<RequestId, Request>)
    requires Ledger(st, jobs, log, requests)
    ensures Quiet(log)
  {
  }

  lemma QueueFacts(events: seq<Event>, log: seq<Event>, polled: nat)
    requires Unpolled(events, log, polled)
    ensures polled <= |log| && events == log[polled..]
  {
  }

  /** A longer log has the same polled events. */
  lemma SamePolled(before: seq<Event>, log: seq<Event>, from: nat, to: nat)
    requires before <= log && from <= to <= |before|
    ensures before[from..to] == log[from..to] && before[to..] == log[to..|before|] && log[from..to] + log[to..|before|] == log[from..|before|]
  {
  }

  lemma DeliveredSplit(before: seq<Event>, log: seq<Event>, from: nat, to: nat)
    requires before <= log && from <= to <= |log| && from <= |before|
    ensures log[from..to] + log[to..] == before[from..] + log[|before|..]
  {
  }

  lemma AllPolled(events: seq<Event>, log: seq<Event>, polled: nat)
    requires Unpolled(events, log, polled)
    ensures polled <= |log| && events == log[polled..] && Unpolled([], log, |log|)
  {
  }

  lemma NoJobsNoWork()
    ensures TotalWork([]) == 0
  {
  }

  /** An unfailed engine with requests has work left. */
  lemma ActiveHasWork(st: Setting, waiting: seq<Job>, active: seq<Job>, log: seq<Event>, requests: map<RequestId, Request>,
                      view: map<RequestId, seq<Token>>, reservations: map<RequestId, nat>)
    requires Ledger(st, waiting + active, log, requests) && RunnerSide(st, waiting, active, view, reservations) && NoneFinished(active)
    ensures waiting + active != [] ==> TotalWork(waiting + active) > 0
  {
    hide Ledger, TotalWork, ActiveOk, JobWork;
    var jobs := waiting + active;
    if waiting != [] {
      WaitingAt(st, waiting, active, view, reservations, 0);
      WaitingWork(st, jobs, log, requests, 0);
      FirstWork(jobs);
    } else if active != [] {
      ActiveAt(st, waiting, active, view, reservations, 0);
      ActiveFacts(st, active[0], view, reservations);
      FirstWork(jobs);
    }
  }

  lemma FirstWork(jobs: seq<Job>)
    requires jobs != []
    ensures TotalWork(jobs) >= JobWork(jobs[0])
  {
  }

  function PhaseSeq(jobs: seq<Job>): (r: seq<Phase>)
    ensures |r| == |jobs|
  {
    seq(|jobs|, i requires 0 <= i < |jobs| => PhaseOf(jobs[i]))
  }

  method PhasesOf(jobs: seq<Job>) returns (phases: seq<Phase>)
    ensures phases == PhaseSeq(jobs)
  {
    phases := [];
    for i := 0 to |jobs|
      invariant |phases| == i && forall x :: 0 <= x < i ==> phases[x] == PhaseOf(jobs[x])
    {
      phases := phases + [if jobs[i].output == [] then Prefill else Decode];
    }
  }

  /** The requests still to be served are as they were when the order was made. */
  ghost predicate StillFresh(order: seq<Scheduler.Work>, k: nat, active: seq<Job>, first: seq<Job>) {
    && order == DecodeFirst(PhaseSeq(first)) && NoneFinished(first) && |active| == |first|
    && forall x :: k <= x < |order| ==> order[x].index < |first| && active[order[x].index] == first[order[x].index]
  }

  lemma StartFresh(order: seq<Scheduler.Work>, active: seq<Job>)
    requires order == DecodeFirst(PhaseSeq(active)) && NoneFinished(active)
    ensures StillFresh(order, 0, active, active) && (active != [] ==> order != [])
  {
    OrderProperties(PhaseSeq(active));
    hide DecodeFirst;
    if active != [] {
      assert Scheduler.Work(0, PhaseSeq(active)[0]) in order;
    }
  }

  lemma FreshAt(order: seq<Scheduler.Work>, k: nat, active: seq<Job>, first: seq<Job>)
    requires StillFresh(order, k, active, first) && k < |order|
    ensures order[k].index < |active| && !active[order[k].index].finished && order[k].phase == PhaseOf(active[order[k].index])
  {
    OrderProperties(PhaseSeq(first));
    hide DecodeFirst;
  }

  lemma FreshStep(order: seq<Scheduler.Work>, k: nat, active: seq<Job>, after: seq<Job>, first: seq<Job>)
    requires StillFresh(order, k, active, first) && k < |order| && |after| == |active| && order[k].index < |active|
    requires after == active[order[k].index := after[order[k].index]]
    ensures StillFresh(order, k + 1, after, first)
  {
    OrderProperties(PhaseSeq(first));
    hide DecodeFirst;
  }

  lemma OrderNonempty(active: seq<Job>)
    requires active != []
    ensures DecodeFirst(PhaseSeq(active)) != []
  {
    OrderProperties(PhaseSeq(active));
    hide DecodeFirst;
    assert Scheduler.Work(0, PhaseSeq(active)[0]) in DecodeFirst(PhaseSeq(active));
  }

  lemma NoneFinishedSnoc(jobs: seq<Job>, j: Job)
    requires NoneFinished(jobs) && !j.finished
    ensures NoneFinished(jobs + [j])
  {
  }

  function Unfinished(jobs: seq<Job>): seq<Job> {
    if jobs == [] then []
    else
      var n := |jobs| - 1;
      Unfinished(jobs[..n]) + if jobs[n].finished then [] else [jobs[n]]
  }

  method KeepUnfinished(jobs: seq<Job>) returns (kept: seq<Job>)
    ensures kept == Unfinished(jobs)
  {
    kept := [];
    for i := 0 to |jobs|
      invariant kept == Unfinished(jobs[..i])
    {
      assert jobs[..i + 1][..i] == jobs[..i];
      if !jobs[i].finished {
        kept := kept + [jobs[i]];
      }
    }
    assert jobs[..|jobs|] == jobs;
  }

  lemma {:induction false} UnfinishedMembers(jobs: seq<Job>)
    ensures forall j :: j in Unfinished(jobs) <==> j in jobs && !j.finished
    decreases |jobs|
  {
    if jobs != [] {
      var n := |jobs| - 1;
      UnfinishedMembers(jobs[..n]);
      assert jobs == jobs[..n] + [jobs[n]];
    }
  }

  lemma {:induction false} UnfinishedDistinct(jobs: seq<Job>)
    requires Distinct(jobs)
    ensures Distinct(Unfinished(jobs))
    decreases |jobs|
  {
    if jobs != [] {
      var n := |jobs| - 1;
      var rest := Unfinished(jobs[..n]);
      UnfinishedDistinct(jobs[..n]);
      UnfinishedMembers(jobs[..n]);
      forall a | 0 <= a < |rest| ensures rest[a].request.id != jobs[n].request.id {
        assert rest[a] in rest;
        var x :| 0 <= x < n && jobs[..n][x] == rest[a];
        DistinctAt(jobs, x, n);
      }
    }
  }

  lemma {:induction false} UnfinishedWork(jobs: seq<Job>)
    ensures TotalWork(Unfinished(jobs)) == TotalWork(jobs)
    decreases |jobs|
  {
    if jobs != [] {
      var n := |jobs| - 1;
      var rest := Unfinished(jobs[..n]);
      UnfinishedWork(jobs[..n]);
      hide TotalWork;
      assert jobs == jobs[..n] + [jobs[n]];
      WorkConcat(jobs[..n], [jobs[n]]);
      WorkConcat(rest, [jobs[n]]);
      OneJob(jobs[n]);
      if jobs[n].finished {
        NoWork(jobs[n]);
        assert rest + [] == rest;
      }
    }
  }

  lemma RemoveOk(st: Setting, waiting: seq<Job>, active: seq<Job>, log: seq<Event>, requests: map<RequestId, Request>,
                 view: map<RequestId, seq<Token>>, reservations: map<RequestId, nat>)
    requires Ledger(st, waiting + active, log, requests) && RunnerSide(st, waiting, active, view, reservations)
    ensures var kept := Unfinished(active);
      && Ledger(st, waiting + kept, log, requests) && RunnerSide(st, waiting, kept, view, reservations)
      && NoneFinished(kept) && TotalWork(waiting + kept) == TotalWork(waiting + active)
  {
    hide Ledger, TotalWork, Unfinished, ActiveOk, WaitingOk;
    var kept := Unfinished(active);
    DistinctJobs(st, waiting + active, log, requests);
    DistinctTail(waiting, active);
    UnfinishedMembers(active);
    UnfinishedDistinct(active);
    UnfinishedWork(active);
    WorkConcat(waiting, active);
    WorkConcat(waiting, kept);
    KeptRearranged(waiting, active, kept);
    LedgerRearrange(st, waiting + active, waiting + kept, log, requests);
    assert Live(kept) == Live(active);
    forall i | 0 <= i < |kept| ensures !kept[i].finished && ActiveOk(st, kept[i], view, reservations) {
      assert kept[i] in kept;
      var x :| 0 <= x < |active| && active[x] == kept[i];
    }
  }

  lemma KeptRearranged(waiting: seq<Job>, active: seq<Job>, kept: seq<Job>)
    requires Distinct(waiting + active) && Distinct(kept) && forall j :: j in kept <==> j in active && !j.finished
    ensures Rearranged(waiting + active, waiting + kept)
  {
    var jobs, t := waiting + active, waiting + kept;
    forall a, b | 0 <= a < b < |t| ensures t[a].request.id != t[b].request.id {
      if b < |waiting| {
        assert t[a] == jobs[a] && t[b] == jobs[b];
      } else if a < |waiting| {
        assert t[b] in kept;
        var x :| 0 <= x < |active| && active[x] == t[b];
        assert t[a] == jobs[a] && t[b] == jobs[|waiting| + x];
      } else {
        assert t[a] == kept[a - |waiting|] && t[b] == kept[b - |waiting|];
      }
    }
    assert forall j :: j in t <==> j in waiting || j in kept;
    assert forall j :: j in jobs <==> j in waiting || j in active;
  }

  /** Marks one job as finished. */
  function Finish(jobs: seq<Job>, k: nat): (r: seq<Job>)
    requires k < |jobs|
    ensures |r| == |jobs| && r[k].finished && forall x :: 0 <= x < |jobs| && jobs[x].finished ==> r[x].finished
  {
    jobs[k := jobs[k].(resident := false, finished := true)]
  }

  /** Ending one job with an error on a backend that may fail. */
  lemma FailOk(st: Setting, jobs: seq<Job>, log: seq<Event>, requests: map<RequestId, Request>, k: nat)
    requires Ledger(st, jobs, log, requests) && k < |jobs| && !jobs[k].finished && !st.reliable
    ensures Ledger(st, Finish(jobs, k), log + [Event(jobs[k].request.id, None, Some(Errored))], requests)
  {
    hide Ledger, Settled, Tokens, Ending;
    EndsQuietly(st, jobs, log, requests, k, Errored);
    LedgerUpdate(st, jobs, log, requests, k, jobs[k].(resident := false, finished := true), Some(Event(jobs[k].request.id, None, Some(Errored))));
  }

  lemma FinishWithin(a: seq<Job>, b: seq<Job>, k: nat)
    ensures k < |a| ==> (a + b)[k] == a[k] && Finish(a + b, k) == Finish(a, k) + b
    ensures k < |b| ==> (a + b)[|a| + k] == b[k] && Finish(a + b, |a| + k) == a + Finish(b, k)
  {
  }

  /** One error event per unfinished job, in order. */
  function Errors(jobs: seq<Job>): seq<Event> {
    if jobs == [] then []
    else
      var j := jobs[|jobs| - 1];
      Errors(jobs[..|jobs| - 1]) + if j.finished then [] else [Event(j.request.id, None, Some(Errored))]
  }

  lemma NoErrors(jobs: seq<Job>, log: seq<Event>)
    ensures log == log + Errors(jobs[..0])
  {
  }

  lemma ErrorsStep(first: seq<Job>, jobs: seq<Job>, i: nat, log: seq<Event>)
    requires i < |first| == |jobs| && jobs[i..] == first[i..]
    ensures jobs[i] == first[i] && jobs[i + 1..] == first[i + 1..]
    ensures log + Errors(first[..i + 1]) ==
      log + Errors(first[..i]) + if first[i].finished then [] else [Event(first[i].request.id, None, Some(Errored))]
  {
    assert first[..i + 1][..i] == first[..i];
    assert jobs[i..][0] == first[i..][0];
    assert jobs[i..][1..] == jobs[i + 1..] && first[i..][1..] == first[i + 1..];
  }

  lemma FinishRest(jobs: seq<Job>, k: nat)
    requires k < |jobs|
    ensures Finish(jobs, k)[k + 1..] == jobs[k + 1..]
  {
  }

  ghost predicate AllDone(jobs: seq<Job>) {
    forall x :: 0 <= x < |jobs| ==> jobs[x].finished
  }

  lemma AllFinished(st: Setting, waiting: seq<Job>, active: seq<Job>, log: seq<Event>, requests: map<RequestId, Request>)
    requires Ledger(st, waiting + active, log, requests) && AllDone(waiting) && AllDone(active)
    ensures Ledger(st, [], log, requests)
  {
    hide Ledger;
    LedgerRearrange(st, waiting + active, [], log, requests);
  }

  lemma DistinctTail(a: seq<Job>, b: seq<Job>)
    requires Distinct(a + b)
    ensures Distinct(b)
  {
    forall x, y | 0 <= x < y < |b| ensures b[x].request.id != b[y].request.id {
      assert b[x] == (a + b)[|a| + x] && b[y] == (a + b)[|a| + y];
    }
  }

  lemma DeliveredSoFar(st: Setting, jobs: seq<Job>, log: seq<Event>, requests: map<RequestId, Request>, k: nat)
    requires Ledger(st, jobs, log, requests) && k < |jobs| && !jobs[k].finished
    ensures var id := jobs[k].request.id;
      Tokens(log, id) == jobs[k].output && Ending(log, id).None? && Settled(st, jobs[k].request, jobs[k].output, None)
  {
    assert Known(requests, log, jobs[k]);
    assert Accounted(st, requests, log, Live(jobs), jobs[k].request.id);
    assert jobs[k] in jobs;
    hide Settled, Tokens, Ending;
  }

  lemma RestoreReady(st: Setting, j: Job, view: map<RequestId, seq<Token>>, reservations: map<RequestId, nat>)
    requires ActiveOk(st, j, view, reservations) && !j.resident && SettingOk(st)
    ensures var id, prompt := j.request.id, j.request.prompt;
      id !in view && Admitted(st.cfg, view[id := []], reservations, id, prompt)
  {
    hide ValidTokens, Progress, PageCount;
    var r := j.request;
    PageCountMonotone(|r.prompt|, |r.prompt| + r.maxNew - 1, st.cfg.blockTokens);
  }

  lemma RestoredOk(st: Setting, j: Job, view: map<RequestId, seq<Token>>, reservations: map<RequestId, nat>, n: nat, view': map<RequestId, seq<Token>>)
    requires ActiveOk(st, j, view, reservations) && !j.resident && n < |j.request.prompt|
    requires view' == view[j.request.id := []][j.request.id := j.request.prompt[..n]]
    ensures var t := j.(resident := true, prefilled := n);
      ActiveOk(st, t, view', reservations) && JobWork(t) <= JobWork(j) && SameElsewhere(view, view', j.request.id) && SameElsewhere(reservations, reservations, j.request.id)
  {
    hide ValidTokens, Progress, Pages, RequestOk, TooBig;
    assert j.request.prompt[..n] + [] == j.request.prompt[..n];
  }

  lemma DistinctJobs(st: Setting, jobs: seq<Job>, log: seq<Event>, requests: map<RequestId, Request>)
    requires Ledger(st, jobs, log, requests)
    ensures Distinct(jobs)
  {
  }

  /** Moving a middle part to the other side of its neighbour. */
  lemma Shuffled(a: seq<Job>, b: seq<Job>, c: seq<Job>, t: seq<Job>)
    requires Distinct(a + b + c) && t == a + c + b
    ensures Rearranged(a + b + c, t)
  {
    var jobs := a + b + c;
    forall x, y | 0 <= x < y < |t| ensures t[x].request.id != t[y].request.id {
      var x' := if x < |a| then x else if x < |a| + |c| then x + |b| else x - |c|;
      var y' := if y < |a| then y else if y < |a| + |c| then y + |b| else y - |c|;
      assert t[x] == jobs[x'] && t[y] == jobs[y'];
    }
    assert forall j :: j in t <==> j in a || j in b || j in c;
    assert forall j :: j in jobs <==> j in a || j in b || j in c;
  }

  // ---- Whole runs ----

  /** A call on the engine. */
  datatype Command = Submitting(request: Request) | Stepping | Cancelling(id: RequestId) | Polling | ShuttingDown

  /** Waiting, active or ended, and only one of them. */
  ghost predicate InOnePlace(waiting: seq<Job>, active: seq<Job>, log: seq<Event>, id: RequestId) {
    var w, a, t := id in Live(waiting), id in Live(active), Ending(log, id).Some?;
    (w || a || t) && !(w && a) && !(w && t) && !(a && t)
  }

  lemma Somewhere(st: Setting, waiting: seq<Job>, active: seq<Job>, log: seq<Event>, requests: map<RequestId, Request>, id: RequestId)
    requires Ledger(st, waiting + active, log, requests) && id in requests
    ensures Settled(st, requests[id], Tokens(log, id), Ending(log, id)) && InOnePlace(waiting, active, log, id)
  {
    var jobs := waiting + active;
    assert Accounted(st, requests, log, Live(jobs), id);
    DistinctJobs(st, jobs, log, requests);
    hide Ledger, Settled, Tokens, Ending, RequestOk;
    assert forall j :: j in jobs <==> j in waiting || j in active;
    NotBoth(waiting, active, id);
  }

  lemma NotBoth(waiting: seq<Job>, active: seq<Job>, id: RequestId)
    requires Distinct(waiting + active)
    ensures !(id in Live(waiting) && id in Live(active))
    ensures id in Live(waiting + active) <==> id in Live(waiting) || id in Live(active)
  {
    var jobs := waiting + active;
    forall i, k | 0 <= i < |waiting| && 0 <= k < |active| ensures waiting[i].request.id != active[k].request.id {
      DistinctAt(jobs, i, |waiting| + k);
      assert jobs[i] == waiting[i] && jobs[|waiting| + k] == active[k];
    }
    forall a, b | a in waiting && b in active ensures a.request.id != b.request.id {
      var i :| 0 <= i < |waiting| && waiting[i] == a;
      var k :| 0 <= k < |active| && active[k] == b;
    }
    assert forall j :: j in jobs <==> j in waiting || j in active;
  }

  lemma PrefixTransitive(a: seq<Event>, b: seq<Event>, c: seq<Event>)
    requires a <= b && b <= c
    ensures a <= c
  {
    assert a == b[..|a|] == c[..|b|][..|a|] == c[..|a|];
  }

  lemma ExtendsPrefix(a: seq<Event>, b: seq<Event>)
    requires Extends(a, b)
    ensures a <= b
  {
  }

  /** What is left of a queue served from the front. */
  ghost predicate IsTail(rest: seq<Job>, queue: seq<Job>) {
    |rest| <= |queue| && rest == queue[|queue| - |rest|..]
  }

  lemma WholeTail(queue: seq<Job>)
    ensures IsTail(queue, queue)
  {
  }

  lemma StillFifo(queue: seq<Job>, before: seq<Job>, after: seq<Job>, jobs: seq<Job>, more: seq<Job>, most: seq<Job>)
    requires IsTail(before, queue) && (after == before || (before != [] && after == before[1..]))
    requires jobs <= more && (most == more || (before != [] && most == more + [before[0]]))
    ensures IsTail(after, queue) && jobs <= most
  {
  }
}
