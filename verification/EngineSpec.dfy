/** What the engine promises about its requests and events (miniprefix/src/engine/engine.cpp), over values. */
module EngineSpec {
  import opened Prelude
  import opened PageKeys
  import opened CausalModel
  import opened KvSpec
  import opened Decoding

  datatype FinishReason = Eos | Length | Cancelled | Errored
  datatype Event = Event(id: RequestId, token: Option<Token>, reason: Option<FinishReason>)
  datatype Job = Job(request: Request, prefilled: nat, output: seq<Token>, resident: bool, finished: bool)

  /** The model served, the pool it is served from, the engine's context limit, and whether the backend never fails. */
  datatype Setting = Setting(model: Model, cfg: Config, context: nat, reliable: bool)

  ghost predicate SettingOk(st: Setting) {
    ConfigOk(st.cfg) && st.context <= st.cfg.context
  }

  predicate RequestOk(st: Setting, r: Request) {
    && r.id != "" && r.prompt != [] && r.maxNew >= 1 && |r.prompt| + r.maxNew <= st.context
    && ValidTokens(r.prompt, st.cfg.vocabulary) && (r.eos.Some? ==> 0 <= r.eos.value < st.cfg.vocabulary)
  }

  /** Worst case: the last sampled token is never appended. */
  function Pages(st: Setting, r: Request): nat {
    if st.cfg.blockTokens == 0 || |r.prompt| + r.maxNew == 0 then 0 else PageCount(|r.prompt| + r.maxNew - 1, st.cfg.blockTokens)
  }

  predicate TooBig(st: Setting, r: Request) {
    Pages(st, r) > st.cfg.maxBlocks
  }

  // ---- The event log ----

  function Tokens(log: seq<Event>, id: RequestId): seq<Token> {
    if log == [] then []
    else
      var e := log[|log| - 1];
      Tokens(log[..|log| - 1], id) + if e.id == id && e.token.Some? then [e.token.value] else []
  }

  /** How the request ended, if it did. */
  function Ending(log: seq<Event>, id: RequestId): Option<FinishReason> {
    if log == [] then None
    else
      var e := log[|log| - 1];
      if e.id == id && e.reason.Some? then e.reason else Ending(log[..|log| - 1], id)
  }

  /** No request has an event after its terminal one; in particular there is at most one terminal event. */
  ghost predicate Quiet(log: seq<Event>) {
    forall i, j :: 0 <= i < j < |log| && log[i].reason.Some? ==> log[j].id != log[i].id
  }

  /** The queue holds every event after the first `polled` ones. */
  ghost predicate Unpolled(events: seq<Event>, log: seq<Event>, polled: nat) {
    polled <= |log| && events == log[polled..]
  }

  lemma UnpolledSnoc(events: seq<Event>, log: seq<Event>, polled: nat, e: Event)
    requires Unpolled(events, log, polled)
    ensures Unpolled(events + [e], log + [e], polled)
  {
  }

  /** The log only grew, and by no cancellation. */
  ghost predicate Extends(before: seq<Event>, after: seq<Event>) {
    before <= after && forall i :: |before| <= i < |after| ==> after[i].reason != Some(Cancelled)
  }

  lemma ExtendsSnoc(before: seq<Event>, after: seq<Event>, e: Event)
    requires Extends(before, after) && e.reason != Some(Cancelled)
    ensures Extends(before, after + [e])
  {
  }

  lemma ExtendsTransitive(a: seq<Event>, b: seq<Event>, c: seq<Event>)
    requires Extends(a, b) && Extends(b, c)
    ensures Extends(a, c)
  {
    assert a == b[..|a|] == c[..|b|][..|a|] == c[..|a|];
    forall i | |a| <= i < |c| ensures c[i].reason != Some(Cancelled) {
      if i < |b| {
        assert c[i] == c[..|b|][i] == b[i];
      }
    }
  }

  lemma {:induction false} NotCancelled(log: seq<Event>, id: RequestId)
    requires Extends([], log)
    ensures Ending(log, id) != Some(Cancelled)
    decreases |log|
  {
    if log != [] {
      NotCancelled(log[..|log| - 1], id);
    }
  }

  lemma LogSnoc(log: seq<Event>, e: Event, id: RequestId)
    ensures Tokens(log + [e], id) == Tokens(log, id) + (if e.id == id && e.token.Some? then [e.token.value] else [])
    ensures Ending(log + [e], id) == if e.id == id && e.reason.Some? then e.reason else Ending(log, id)
  {
    assert (log + [e])[..|log|] == log;
  }

  lemma {:induction false} NotEnded(log: seq<Event>, id: RequestId, i: nat)
    requires Ending(log, id).None? && i < |log| && log[i].id == id
    ensures log[i].reason.None?
    decreases |log|
  {
    if i < |log| - 1 {
      assert log[..|log| - 1][i] == log[i];
      NotEnded(log[..|log| - 1], id, i);
    }
  }

  lemma {:induction false} NeverNamed(log: seq<Event>, id: RequestId)
    requires forall i :: 0 <= i < |log| ==> log[i].id != id
    ensures Tokens(log, id) == [] && Ending(log, id) == None
    decreases |log|
  {
    if log != [] {
      NeverNamed(log[..|log| - 1], id);
    }
  }

  lemma QuietSnoc(log: seq<Event>, e: Event)
    requires Quiet(log) && Ending(log, e.id).None?
    ensures Quiet(log + [e])
  {
    forall i | 0 <= i < |log| && log[i].id == e.id ensures log[i].reason.None? {
      NotEnded(log, e.id, i);
    }
  }

  // ---- Promises per request ----

  /** What the log may say about one request. */
  ghost predicate Settled(st: Setting, r: Request, out: seq<Token>, ending: Option<FinishReason>) {
    && out <= Standalone(st.model, r)
    && (out != [] ==> !TooBig(st, r))
    && (ending == Some(Eos) ==> out == Standalone(st.model, r) && out != [] && r.eos == Some(out[|out| - 1]))
    && (ending == Some(Length) ==> out == Standalone(st.model, r) && |out| == r.maxNew && out != [] && r.eos != Some(out[|out| - 1]))
    && (ending == Some(Errored) && st.reliable ==> TooBig(st, r))
  }

  /** Exactly the unfinished jobs. */
  ghost function Live(jobs: seq<Job>): set<RequestId> {
    set j | j in jobs && !j.finished :: j.request.id
  }

  ghost predicate Distinct(jobs: seq<Job>) {
    forall a, b :: 0 <= a < b < |jobs| ==> jobs[a].request.id != jobs[b].request.id
  }

  ghost predicate NoneFinished(jobs: seq<Job>) {
    forall i :: 0 <= i < |jobs| ==> !jobs[i].finished
  }

  ghost predicate Known(requests: map<RequestId, Request>, log: seq<Event>, j: Job) {
    && j.request.id in requests && requests[j.request.id] == j.request
    && (!j.finished ==> Tokens(log, j.request.id) == j.output)
  }

  ghost predicate Accounted(st: Setting, requests: map<RequestId, Request>, log: seq<Event>, live: set<RequestId>, id: RequestId)
    requires id in requests
  {
    && requests[id].id == id && RequestOk(st, requests[id])
    && Settled(st, requests[id], Tokens(log, id), Ending(log, id))
    && (Ending(log, id).None? <==> id in live)
  }

  /** Every submitted request is live in exactly one place or has ended, and the log keeps its promises. */
  ghost predicate Ledger(st: Setting, jobs: seq<Job>, log: seq<Event>, requests: map<RequestId, Request>) {
    && Distinct(jobs) && (forall k :: 0 <= k < |jobs| ==> Known(requests, log, jobs[k]))
    && Quiet(log) && (forall i :: 0 <= i < |log| ==> log[i].id in requests)
    && (forall id :: id in requests ==> Accounted(st, requests, log, Live(jobs), id))
  }

  lemma LiveUpdate(jobs: seq<Job>, k: nat, j: Job)
    requires Distinct(jobs) && k < |jobs| && j.request.id == jobs[k].request.id && !jobs[k].finished
    ensures Distinct(jobs[k := j])
    ensures Live(jobs[k := j]) == if j.finished then Live(jobs) - {j.request.id} else Live(jobs)
    ensures j.request.id in Live(jobs)
  {
    var t := jobs[k := j];
    assert jobs[k] in jobs;
    forall id ensures id in Live(t) <==> id in Live(jobs) && !(j.finished && id == j.request.id) {
      if id in Live(t) {
        var x :| x in t && !x.finished && x.request.id == id;
        var i :| 0 <= i < |t| && t[i] == x;
        assert jobs[i] in jobs;
      }
      if id in Live(jobs) && !(j.finished && id == j.request.id) {
        var x :| x in jobs && !x.finished && x.request.id == id;
        var i :| 0 <= i < |jobs| && jobs[i] == x;
        assert t[i] in t;
      }
    }
  }

  /** A live job changes, possibly with one event of its own. */
  lemma LedgerUpdate(st: Setting, jobs: seq<Job>, log: seq<Event>, requests: map<RequestId, Request>, k: nat, j: Job, e: Option<Event>)
    requires Ledger(st, jobs, log, requests) && k < |jobs| && !jobs[k].finished && j.request == jobs[k].request
    requires e.Some? ==> e.value.id == j.request.id
    requires j.finished <==> e.Some? && e.value.reason.Some?
    requires var more := if e.Some? then log + [e.value] else log;
      && Settled(st, j.request, Tokens(more, j.request.id), Ending(more, j.request.id))
      && (!j.finished ==> Tokens(more, j.request.id) == j.output)
    ensures Ledger(st, jobs[k := j], if e.Some? then log + [e.value] else log, requests)
  {
    hide Settled, Live, RequestOk, Quiet, Tokens, Ending, Distinct;
    var id := j.request.id;
    var more := if e.Some? then log + [e.value] else log;
    var t := jobs[k := j];
    LiveUpdate(jobs, k, j);
    assert Known(requests, log, jobs[k]) && Accounted(st, requests, log, Live(jobs), id);
    LogUpdate(log, id, e);
    if e.Some? {
      QuietSnoc(log, e.value);
    }
    forall i | 0 <= i < |t| ensures Known(requests, more, t[i]) {
      assert Known(requests, log, jobs[i]);
      DistinctAt(jobs, i, k);
    }
    forall x | x in requests ensures Accounted(st, requests, more, Live(t), x) {
      assert Accounted(st, requests, log, Live(jobs), x);
    }
  }

  lemma DistinctAt(jobs: seq<Job>, i: nat, k: nat)
    requires Distinct(jobs) && i < |jobs| && k < |jobs|
    ensures i != k ==> jobs[i].request.id != jobs[k].request.id
  {
  }

  lemma LogUpdate(log: seq<Event>, id: RequestId, e: Option<Event>)
    requires e.Some? ==> e.value.id == id
    ensures var more := if e.Some? then log + [e.value] else log;
      && (forall x :: x != id ==> Tokens(more, x) == Tokens(log, x) && Ending(more, x) == Ending(log, x))
      && Ending(more, id) == (if e.Some? && e.value.reason.Some? then e.value.reason else Ending(log, id))
  {
    if e.Some? {
      forall x ensures x != id ==> Tokens(log + [e.value], x) == Tokens(log, x) && Ending(log + [e.value], x) == Ending(log, x) {
        LogSnoc(log, e.value, x);
      }
      LogSnoc(log, e.value, id);
    }
  }

  /** Same jobs, or all the unfinished ones, in another order. */
  ghost predicate Rearranged(jobs: seq<Job>, t: seq<Job>) {
    && Distinct(t) && (forall j :: j in t ==> j in jobs) && (forall j :: j in jobs && !j.finished ==> j in t)
  }

  lemma LedgerRearrange(st: Setting, jobs: seq<Job>, t: seq<Job>, log: seq<Event>, requests: map<RequestId, Request>)
    requires Ledger(st, jobs, log, requests) && Rearranged(jobs, t)
    ensures Ledger(st, t, log, requests) && Live(t) == Live(jobs)
  {
    forall i | 0 <= i < |t| ensures Known(requests, log, t[i]) {
      assert t[i] in jobs;
    }
    assert Live(t) == Live(jobs);
    hide Accounted, Quiet, Live;
  }

  lemma LedgerSubmit(st: Setting, jobs: seq<Job>, t: seq<Job>, log: seq<Event>, requests: map<RequestId, Request>, r: Request)
    requires Ledger(st, jobs, log, requests) && RequestOk(st, r) && r.id !in requests
    requires t == jobs + [Job(r, 0, [], false, false)]
    ensures Ledger(st, t, log, requests[r.id := r])
  {
    hide RequestOk, Quiet, Tokens, Ending, Settled;
    var j := Job(r, 0, [], false, false);
    var more := requests[r.id := r];
    NeverNamed(log, r.id);
    NothingSettled(st, r);
    forall k | 0 <= k < |t| ensures Known(more, log, t[k]) && (k < |jobs| ==> t[k].request.id != r.id) {
      if k < |jobs| {
        assert Known(requests, log, jobs[k]);
      }
    }
    assert Live(t) == Live(jobs) + {r.id};
    hide Live;
    forall id | id in more ensures Accounted(st, more, log, Live(t), id) {
      if id != r.id {
        assert Accounted(st, requests, log, Live(jobs), id);
      }
    }
  }

  lemma NothingSettled(st: Setting, r: Request)
    ensures Settled(st, r, [], None)
  {
    hide TooBig, Standalone;
  }

  // ---- Remaining work ----

  function JobWork(j: Job): nat {
    if j.finished then 0
    else
      (if j.prefilled < |j.request.prompt| then |j.request.prompt| - j.prefilled else 0) +
      (if |j.output| < j.request.maxNew then j.request.maxNew - |j.output| else 0)
  }

  /** Unprefilled prompt tokens plus outputs still to come, over all jobs. */
  function TotalWork(jobs: seq<Job>): nat {
    if jobs == [] then 0 else JobWork(jobs[0]) + TotalWork(jobs[1..])
  }

  lemma {:induction false} WorkUpdate(jobs: seq<Job>, k: nat, j: Job)
    requires k < |jobs|
    ensures TotalWork(jobs[k := j]) + JobWork(jobs[k]) == TotalWork(jobs) + JobWork(j)
    decreases |jobs|
  {
    hide JobWork;
    if k > 0 {
      assert jobs[k := j][1..] == jobs[1..][k - 1 := j];
      WorkUpdate(jobs[1..], k - 1, j);
    } else {
      assert jobs[k := j][1..] == jobs[1..];
    }
  }

  lemma {:induction false} WorkConcat(a: seq<Job>, b: seq<Job>)
    ensures TotalWork(a + b) == TotalWork(a) + TotalWork(b)
    decreases |a|
  {
    hide JobWork;
    if a == [] {
      assert a + b == b;
    } else {
      assert (a + b)[1..] == a[1..] + b;
      WorkConcat(a[1..], b);
    }
  }

  // ---- The runner's side ----

  /** The tokens a resident job has in the KV cache: all but its last output. */
  function Stored(j: Job): seq<Token>
    requires j.prefilled <= |j.request.prompt|
  {
    j.request.prompt[..j.prefilled] + if j.output == [] then [] else j.output[..|j.output| - 1]
  }

  ghost predicate WaitingOk(j: Job) {
    j == Job(j.request, 0, [], false, false)
  }

  ghost predicate ActiveOk(st: Setting, j: Job, view: map<RequestId, seq<Token>>, reservations: map<RequestId, nat>) {
    var r := j.request;
    && RequestOk(st, r) && st.cfg.blockTokens > 0 && !TooBig(st, r)
    && Progress(st.model, r, j.output) && ValidTokens(j.output, st.cfg.vocabulary)
    && j.prefilled <= |r.prompt| && (j.output == [] <==> j.prefilled < |r.prompt|)
    && r.id in reservations && reservations[r.id] == Pages(st, r)
    && (j.resident <==> r.id in view)
    && (if j.resident then view[r.id] == Stored(j) else j.prefilled == 0 && j.output == [])
  }

  ghost predicate RunnerSide(st: Setting, waiting: seq<Job>, active: seq<Job>, view: map<RequestId, seq<Token>>, reservations: map<RequestId, nat>) {
    && (forall i :: 0 <= i < |waiting| ==> WaitingOk(waiting[i]))
    && (forall i :: 0 <= i < |active| ==> !active[i].finished ==> ActiveOk(st, active[i], view, reservations))
    && view.Keys <= Live(active) && reservations.Keys <= Live(active)
  }

  /** Only the entry of `id` changed. */
  ghost predicate SameElsewhere<T>(a: map<RequestId, T>, b: map<RequestId, T>, id: RequestId) {
    forall x :: x != id ==> (x in a <==> x in b) && (x in a ==> a[x] == b[x])
  }

  lemma RunnerUpdate(st: Setting, waiting: seq<Job>, active: seq<Job>, view: map<RequestId, seq<Token>>, reservations: map<RequestId, nat>,
                     k: nat, j: Job, view': map<RequestId, seq<Token>>, reservations': map<RequestId, nat>)
    requires RunnerSide(st, waiting, active, view, reservations) && Distinct(active) && k < |active| && !active[k].finished
    requires j.request == active[k].request && SameElsewhere(view, view', j.request.id) && SameElsewhere(reservations, reservations', j.request.id)
    requires if j.finished then j.request.id !in view' && j.request.id !in reservations' else ActiveOk(st, j, view', reservations')
    ensures RunnerSide(st, waiting, active[k := j], view', reservations')
  {
    hide Live, ActiveOk, Distinct, SameElsewhere, WaitingOk;
    LiveUpdate(active, k, j);
    var t := active[k := j];
    forall i | 0 <= i < |t| ensures !t[i].finished ==> ActiveOk(st, t[i], view', reservations') {
      if i != k && !t[i].finished {
        DistinctAt(active, i, k);
        ActiveFrame(st, active[i], view, reservations, j.request.id, view', reservations');
      }
    }
    KeysKept(view, view', Live(active), j.request.id, j.finished);
    KeysKept(reservations, reservations', Live(active), j.request.id, j.finished);
  }

  lemma KeysKept<T>(a: map<RequestId, T>, b: map<RequestId, T>, live: set<RequestId>, id: RequestId, gone: bool)
    requires SameElsewhere(a, b, id) && a.Keys <= live && id in live && (gone ==> id !in b)
    ensures b.Keys <= if gone then live - {id} else live
  {
  }

  lemma ActiveFrame(st: Setting, j: Job, view: map<RequestId, seq<Token>>, reservations: map<RequestId, nat>,
                    id: RequestId, view': map<RequestId, seq<Token>>, reservations': map<RequestId, nat>)
    requires ActiveOk(st, j, view, reservations) && j.request.id != id && SameElsewhere(view, view', id) && SameElsewhere(reservations, reservations', id)
    ensures ActiveOk(st, j, view', reservations')
  {
    hide RequestOk, Progress, Pages, TooBig, ValidTokens, Stored;
  }
}
