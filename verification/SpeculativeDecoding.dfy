/** Greedy speculative decoding (examples/speculative_decoding): a draft proposes, the target verifies one token at a
    time, and the result is exactly the target's own greedy decoding. */
module SpeculativeDecoding {
  import opened Prelude

  type Next = seq<int> -> int

  predicate Ended(tokens: seq<int>, eos: int) {
    tokens != [] && tokens[|tokens| - 1] == eos
  }

  /** What plain greedy decoding appends: at most `left` tokens, up to and including the first end token. */
  function Greedy(target: Next, tokens: seq<int>, left: nat, eos: int): (r: seq<int>)
    ensures |r| <= left
    decreases left
  {
    if left == 0 || Ended(tokens, eos) then []
    else
      var t := target(tokens);
      [t] + Greedy(target, tokens + [t], left - 1, eos)
  }

  /** Token by token: each one is the target's choice after what precedes it, only the last may be the end token, and the
      result is short of the budget only because the end token was reached. */
  lemma {:induction false} GreedyMeans(target: Next, tokens: seq<int>, left: nat, eos: int)
    ensures var r := Greedy(target, tokens, left, eos);
      && |r| <= left && (forall i :: 0 <= i < |r| ==> r[i] == target(tokens + r[..i]))
      && (forall i :: 0 <= i < |r| - 1 ==> r[i] != eos)
      && (tokens != [] && tokens[|tokens| - 1] == eos ==> r == [])
      && (|r| < left ==> tokens + r != [] && (tokens + r)[|tokens + r| - 1] == eos)
    decreases left
  {
    if left > 0 && !Ended(tokens, eos) {
      var t := target(tokens);
      GreedyMeans(target, tokens + [t], left - 1, eos);
      var rest := Greedy(target, tokens + [t], left - 1, eos);
      var r := [t] + rest;
      forall i | 0 <= i < |r| ensures r[i] == target(tokens + r[..i]) {
        if i == 0 {
          assert tokens + r[..0] == tokens;
        } else {
          assert tokens + r[..i] == tokens + [t] + rest[..i - 1];
        }
      }
      assert tokens + r == tokens + [t] + rest;
      assert forall i :: 0 < i < |r| ==> r[i] == rest[i - 1];
    }
  }

  /** `more` is how greedy decoding continues, and `left - |more|` tokens remain after it. */
  ghost predicate Continues(target: Next, tokens: seq<int>, left: nat, eos: int, more: seq<int>) {
    && |more| <= left
    && Greedy(target, tokens, left, eos) == more + Greedy(target, tokens + more, left - |more|, eos)
  }

  lemma ContinuesNothing(target: Next, tokens: seq<int>, left: nat, eos: int)
    ensures Continues(target, tokens, left, eos, [])
  {
    assert tokens + [] == tokens;
  }

  /** One more target token. */
  lemma ContinuesStep(target: Next, tokens: seq<int>, left: nat, eos: int, more: seq<int>)
    requires Continues(target, tokens, left, eos, more) && |more| < left && !Ended(tokens + more, eos)
    ensures Continues(target, tokens, left, eos, more + [target(tokens + more)])
  {
    var t := target(tokens + more);
    assert tokens + (more + [t]) == tokens + more + [t];
    var rest := Greedy(target, tokens + more + [t], left - |more| - 1, eos);
    assert more + ([t] + rest) == more + [t] + rest;
  }

  lemma ContinuesTransitive(target: Next, tokens: seq<int>, left: nat, eos: int, a: seq<int>, b: seq<int>)
    requires Continues(target, tokens, left, eos, a) && Continues(target, tokens + a, left - |a|, eos, b)
    ensures Continues(target, tokens, left, eos, a + b)
  {
    assert tokens + (a + b) == tokens + a + b;
    var rest := Greedy(target, tokens + a + b, left - |a| - |b|, eos);
    assert a + (b + rest) == a + b + rest;
  }

  /** greedy_decode: the reference loop, one call per token. */
  method GreedyDecode(target: Next, prompt: seq<int>, maxNew: int, eos: int) returns (r: Option<(seq<int>, nat)>)
    ensures r.None? <==> maxNew < 0
    ensures r.Some? ==> r.value.0 == Greedy(target, prompt, maxNew, eos) && r.value.1 == |r.value.0|
    ensures r.Some? ==>
      var t := r.value.0;
      && |t| <= maxNew && (forall i :: 0 <= i < |t| ==> t[i] == target(prompt + t[..i])) && (forall i :: 0 <= i < |t| - 1 ==> t[i] != eos)
      && (prompt != [] && prompt[|prompt| - 1] == eos ==> t == [])
      && (|t| < maxNew ==> prompt + t != [] && (prompt + t)[|prompt + t| - 1] == eos)
  {
    if maxNew < 0 {
      return None;
    }
    GreedyMeans(target, prompt, maxNew, eos);
    var generated: seq<int> := [];
    ContinuesNothing(target, prompt, maxNew, eos);
    assert prompt + generated == prompt;
    while |generated| < maxNew && !Ended(prompt + generated, eos)
      invariant Continues(target, prompt, maxNew, eos, generated)
      decreases maxNew - |generated|
    {
      ContinuesStep(target, prompt, maxNew, eos, generated);
      generated := generated + [target(prompt + generated)];
    }
    return Some((generated, |generated|));
  }

  // ---- The draft ----

  /** A draft: its own greedy tokens, at most `k`, up to its first end token. */
  method Propose(draft: Next, prefix: seq<int>, k: int, eos: int) returns (r: Option<seq<int>>)
    ensures r.None? <==> k < 1
    ensures r.Some? ==>
      && 1 <= |r.value| <= k
      && (forall i :: 0 <= i < |r.value| ==> r.value[i] == draft(prefix + r.value[..i]))
      && (forall i :: 0 <= i < |r.value| - 1 ==> r.value[i] != eos)
      && (|r.value| < k ==> r.value[|r.value| - 1] == eos)
  {
    if k < 1 {
      return None;
    }
    var candidates: seq<int> := [];
    while |candidates| < k
      invariant |candidates| <= k && forall i :: 0 <= i < |candidates| ==> candidates[i] == draft(prefix + candidates[..i]) && candidates[i] != eos
      decreases k - |candidates|
    {
      ghost var before := candidates;
      var token := draft(prefix + candidates);
      candidates := candidates + [token];
      assert candidates[..|before|] == before && forall i :: 0 <= i < |before| ==> candidates[..i] == before[..i];
      if token == eos {
        return Some(candidates);
      }
    }
    return Some(candidates);
  }

  // ---- Verification ----

  datatype Verification = Verification(emitted: seq<int>, accepted: nat, checked: nat, mismatch: bool, bonus: bool)

  function One(b: bool): nat {
    if b then 1 else 0
  }

  function TargetCalls(v: Verification): nat {
    v.checked + One(v.bonus)
  }

  /** The counters of one round add up, and the target was called once per emitted token. */
  ghost predicate Balanced(v: Verification, candidates: seq<int>) {
    && |v.emitted| == v.accepted + One(v.mismatch) + One(v.bonus) && v.checked == v.accepted + One(v.mismatch)
    && v.checked <= |candidates| && TargetCalls(v) == |v.emitted|
    && (v.mismatch ==> !v.bonus) && (v.bonus ==> v.checked == |candidates|)
  }

  /** verify_candidates: keeps the matching front of the draft, corrects its first error, and adds one token after full
      agreement; whatever the draft, what it emits is how greedy decoding of the target continues. */
  method Verify(target: Next, prefix: seq<int>, candidates: seq<int>, remaining: int, eos: int) returns (r: Option<Verification>)
    ensures r.None? <==> remaining < 1 || candidates == [] || |candidates| > remaining
    ensures r.Some? ==>
      && r.value.emitted != [] && |r.value.emitted| <= remaining && Balanced(r.value, candidates)
      && (!Ended(prefix, eos) ==> Continues(target, prefix, remaining, eos, r.value.emitted))
    ensures r.Some? ==>
      var v := r.value;
      && (forall i :: 0 <= i < |v.emitted| ==> v.emitted[i] == target(prefix + v.emitted[..i]))
      && v.accepted <= |candidates| && v.accepted <= |v.emitted| && v.emitted[..v.accepted] == candidates[..v.accepted]
      && (forall i :: 0 <= i < v.accepted - 1 ==> candidates[i] != eos)
      && (v.mismatch <==> v.accepted < |candidates| && !(v.accepted > 0 && candidates[v.accepted - 1] == eos))
      && (v.mismatch ==> |v.emitted| == v.accepted + 1 && candidates[v.accepted] != v.emitted[v.accepted])
      && (v.bonus <==> v.accepted == |candidates| < remaining && candidates[v.accepted - 1] != eos)
  {
    hide Greedy, Continues, Ended;
    if remaining < 1 || candidates == [] || |candidates| > remaining {
      return None;
    }
    var emitted: seq<int> := [];
    ContinuesNothing(target, prefix, remaining, eos);
    for index := 0 to |candidates|
      invariant |emitted| == index && emitted == candidates[..index] && forall i :: 0 <= i < index ==> emitted[i] != eos
      invariant forall i :: 0 <= i < |emitted| ==> emitted[i] == target(prefix + emitted[..i])
      invariant !Ended(prefix, eos) ==> Continues(target, prefix, remaining, eos, emitted)
    {
      var expected := target(prefix + emitted);
      OneMore(target, prefix, emitted);
      KeepsContinuing(target, prefix, remaining, eos, emitted);
      if candidates[index] != expected {
        return Some(Verification(emitted + [expected], index, index + 1, true, false));
      }
      emitted := emitted + [candidates[index]];
      if candidates[index] == eos {
        return Some(Verification(emitted, index + 1, index + 1, false, false));
      }
    }
    var n := |candidates|;
    if n < remaining {
      OneMore(target, prefix, emitted);
      KeepsContinuing(target, prefix, remaining, eos, emitted);
      return Some(Verification(emitted + [target(prefix + emitted)], n, n, false, true));
    }
    return Some(Verification(emitted, n, n, false, false));
  }

  lemma KeepsContinuing(target: Next, prefix: seq<int>, remaining: int, eos: int, emitted: seq<int>)
    requires |emitted| < remaining && (emitted != [] ==> emitted[|emitted| - 1] != eos)
    requires !Ended(prefix, eos) ==> Continues(target, prefix, remaining, eos, emitted)
    ensures !Ended(prefix, eos) ==> Continues(target, prefix, remaining, eos, emitted + [target(prefix + emitted)])
  {
    hide Continues;
    if !Ended(prefix, eos) {
      NotEnded(prefix, emitted, eos);
      ContinuesStep(target, prefix, remaining, eos, emitted);
    }
  }

  lemma OneMore(target: Next, prefix: seq<int>, emitted: seq<int>)
    requires forall i :: 0 <= i < |emitted| ==> emitted[i] == target(prefix + emitted[..i])
    ensures var more := emitted + [target(prefix + emitted)]; forall i :: 0 <= i < |more| ==> more[i] == target(prefix + more[..i])
  {
    var more := emitted + [target(prefix + emitted)];
    forall i | 0 <= i < |more| ensures more[i] == target(prefix + more[..i]) {
      assert more[..i] == emitted[..i];
      if i == |emitted| {
        assert emitted[..i] == emitted;
      }
    }
  }

  lemma NotEnded(prefix: seq<int>, emitted: seq<int>, eos: int)
    requires !Ended(prefix, eos) && (emitted != [] ==> emitted[|emitted| - 1] != eos)
    ensures !Ended(prefix + emitted, eos)
  {
  }

  // ---- The whole decoding ----

  const NoCounters := Counters(0, 0, 0, 0, 0, 0, 0, 0)

  datatype Counters = Counters(proposed: nat, accepted: nat, checked: nat, calls: nat, mismatches: nat, discarded: nat, bonus: nat, rounds: nat)

  /** One verification round: where it started, what was proposed and what came of it. */
  datatype RoundTrace = RoundTrace(prefixLength: nat, candidates: seq<int>, verification: Verification)

  datatype Result = Result(generated: seq<int>, counters: Counters, trace: seq<RoundTrace>)

  /** A round proposes the draft's own tokens after `prefix`: at most `k`, no more than remain, fewer only at an end token. */
  ghost predicate Proposed(draft: Next, prefix: seq<int>, candidates: seq<int>, limit: int, eos: int) {
    && 1 <= |candidates| <= limit && (forall i :: 0 <= i < |candidates| ==> candidates[i] == draft(prefix + candidates[..i]))
    && (|candidates| < limit ==> candidates[|candidates| - 1] == eos)
  }

  /** The rounds follow one another, each from what the ones before it committed. */
  ghost predicate TraceOk(draft: Next, prompt: seq<int>, generated: seq<int>, trace: seq<RoundTrace>, maxNew: int, k: int, eos: int) {
    && (if trace == [] then generated == [] else trace[0].prefixLength == |prompt|)
    && forall t :: 0 <= t < |trace| ==> RoundAt(draft, prompt, generated, trace, maxNew, k, eos, t)
  }

  ghost predicate RoundAt(draft: Next, prompt: seq<int>, generated: seq<int>, trace: seq<RoundTrace>, maxNew: int, k: int, eos: int, t: nat)
    requires t < |trace|
  {
    var tokens, p, v := prompt + generated, trace[t].prefixLength, trace[t].verification;
    var remaining := maxNew - (p - |prompt|);
    && |prompt| <= p && p + |v.emitted| == (if t + 1 < |trace| then trace[t + 1].prefixLength else |tokens|)
    && p + |v.emitted| <= |tokens| && tokens[p..p + |v.emitted|] == v.emitted
    && Proposed(draft, tokens[..p], trace[t].candidates, if k < remaining then k else remaining, eos)
  }

  lemma TraceMore(draft: Next, prompt: seq<int>, generated: seq<int>, trace: seq<RoundTrace>, maxNew: int, k: int, eos: int, next: RoundTrace)
    requires TraceOk(draft, prompt, generated, trace, maxNew, k, eos) && next.prefixLength == |prompt + generated|
    requires var remaining := maxNew - |generated|; Proposed(draft, prompt + generated, next.candidates, if k < remaining then k else remaining, eos)
    ensures TraceOk(draft, prompt, generated + next.verification.emitted, trace + [next], maxNew, k, eos)
  {
    hide Proposed, RoundAt;
    var more, rounds := generated + next.verification.emitted, trace + [next];
    assert prompt + more == prompt + generated + next.verification.emitted;
    forall t | 0 <= t < |rounds| ensures RoundAt(draft, prompt, more, rounds, maxNew, k, eos, t) {
      if t < |trace| {
        RoundKept(draft, prompt, generated, trace, maxNew, k, eos, next, t);
      } else {
        RoundAdded(draft, prompt, generated, trace, maxNew, k, eos, next);
      }
    }
  }

  lemma RoundKept(draft: Next, prompt: seq<int>, generated: seq<int>, trace: seq<RoundTrace>, maxNew: int, k: int, eos: int, next: RoundTrace, t: nat)
    requires t < |trace| && RoundAt(draft, prompt, generated, trace, maxNew, k, eos, t) && next.prefixLength == |prompt + generated|
    ensures RoundAt(draft, prompt, generated + next.verification.emitted, trace + [next], maxNew, k, eos, t)
  {
    hide Proposed;
    var tokens, p := prompt + generated, trace[t].prefixLength;
    FrontStays(prompt, generated, next.verification.emitted, p, p + |trace[t].verification.emitted|);
    assert (trace + [next])[t] == trace[t];
  }

  lemma FrontStays(prompt: seq<int>, generated: seq<int>, added: seq<int>, p: nat, end: nat)
    requires p <= end <= |prompt + generated|
    ensures (prompt + (generated + added))[..p] == (prompt + generated)[..p] && (prompt + (generated + added))[p..end] == (prompt + generated)[p..end]
  {
  }

  lemma RoundAdded(draft: Next, prompt: seq<int>, generated: seq<int>, trace: seq<RoundTrace>, maxNew: int, k: int, eos: int, next: RoundTrace)
    requires next.prefixLength == |prompt + generated|
    requires var remaining := maxNew - |generated|; Proposed(draft, prompt + generated, next.candidates, if k < remaining then k else remaining, eos)
    ensures RoundAt(draft, prompt, generated + next.verification.emitted, trace + [next], maxNew, k, eos, |trace|)
  {
    hide Proposed;
    var tokens, p := prompt + (generated + next.verification.emitted), next.prefixLength;
    assert tokens[..p] == prompt + generated;
    assert tokens[p..] == next.verification.emitted;
  }

  ghost predicate CountersBalance(c: Counters, generated: nat) {
    && c.proposed == c.accepted + c.mismatches + c.discarded && generated == c.accepted + c.mismatches + c.bonus
    && c.calls == generated && c.checked == c.accepted + c.mismatches && c.rounds <= generated
  }

  function AddRound(c: Counters, v: Verification, proposed: nat): Counters
    requires v.checked <= proposed
  {
    Counters(c.proposed + proposed, c.accepted + v.accepted, c.checked + v.checked, c.calls + TargetCalls(v),
             c.mismatches + One(v.mismatch), c.discarded + (proposed - v.checked), c.bonus + One(v.bonus), c.rounds + 1)
  }

  /** speculative_decode: for every target, draft, prompt, budget and block size it ends, yields exactly the greedy tokens
      with exactly as many target calls, and its counters balance. */
  method SpeculativeDecode(target: Next, draft: Next, draftEos: int, prompt: seq<int>, maxNew: int, k: int, eos: int) returns (r: Option<Result>)
    ensures r.None? <==> k < 1 || maxNew < 0 || draftEos != eos
    ensures r.Some? ==> r.value.generated == Greedy(target, prompt, maxNew, eos) && TraceOk(draft, prompt, r.value.generated, r.value.trace, maxNew, k, eos)
    ensures r.Some? ==>
      var t := r.value.generated;
      && |t| <= maxNew && (forall i :: 0 <= i < |t| ==> t[i] == target(prompt + t[..i])) && (forall i :: 0 <= i < |t| - 1 ==> t[i] != eos)
      && (prompt != [] && prompt[|prompt| - 1] == eos ==> t == [])
      && (|t| < maxNew ==> prompt + t != [] && (prompt + t)[|prompt + t| - 1] == eos)
    ensures r.Some? ==>
      var c, n := r.value.counters, |r.value.generated|;
      && c.proposed == c.accepted + c.mismatches + c.discarded && n == c.accepted + c.mismatches + c.bonus
      && c.calls == n && c.checked == c.accepted + c.mismatches && c.rounds == |r.value.trace| <= n
  {
    hide Greedy, Continues, Balanced, AddRound, Ended, NoCounters, TraceOk, Proposed;
    if k < 1 || maxNew < 0 || draftEos != eos {
      return None;
    }
    GreedyMeans(target, prompt, maxNew, eos);
    var generated: seq<int> := [];
    var trace: seq<RoundTrace> := [];
    NoRounds(draft, prompt, maxNew, k, eos);
    var c := NoCounters;
    ContinuesNothing(target, prompt, maxNew, eos);
    NothingCounted();
    while |generated| < maxNew && !Ended(prompt + generated, eos)
      invariant |generated| <= maxNew && Continues(target, prompt, maxNew, eos, generated) && CountersBalance(c, |generated|)
      invariant TraceOk(draft, prompt, generated, trace, maxNew, k, eos) && c.rounds == |trace|
      decreases maxNew - |generated|
    {
      var remaining := maxNew - |generated|;
      var candidates, v := Round(target, draft, prompt + generated, remaining, k, eos);
      WithinLeft(target, prompt, maxNew, eos, generated, v.emitted);
      RoundBalances(c, v, candidates, |generated|);
      var round := RoundTrace(|prompt + generated|, candidates, v);
      TraceMore(draft, prompt, generated, trace, maxNew, k, eos, round);
      trace := trace + [round];
      c := AddRound(c, v, |candidates|);
      generated := generated + v.emitted;
    }
    NothingLeft(target, prompt, maxNew, eos, generated);
    return Some(Result(generated, c, trace));
  }

  /** One block: propose at most `k` tokens and verify them. */
  method Round(target: Next, draft: Next, prefix: seq<int>, remaining: nat, k: nat, eos: int) returns (candidates: seq<int>, v: Verification)
    requires remaining > 0 && k > 0 && !Ended(prefix, eos)
    ensures v.emitted != [] && |v.emitted| <= remaining && Balanced(v, candidates) && Continues(target, prefix, remaining, eos, v.emitted)
    ensures Proposed(draft, prefix, candidates, if k < remaining then k else remaining, eos)
  {
    hide Greedy, Continues, Balanced;
    var proposed := Propose(draft, prefix, if k < remaining then k else remaining, eos);
    candidates := proposed.value;
    var verified := Verify(target, prefix, candidates, remaining, eos);
    v := verified.value;
  }

  lemma NothingCounted()
    ensures CountersBalance(NoCounters, 0) && NoCounters.rounds == 0
  {
  }

  lemma NoRounds(draft: Next, prompt: seq<int>, maxNew: int, k: int, eos: int)
    ensures TraceOk(draft, prompt, [], [], maxNew, k, eos)
  {
  }

  lemma RoundBalances(c: Counters, v: Verification, candidates: seq<int>, n: nat)
    requires CountersBalance(c, n) && Balanced(v, candidates) && v.emitted != []
    ensures v.checked <= |candidates| && CountersBalance(AddRound(c, v, |candidates|), n + |v.emitted|)
    ensures AddRound(c, v, |candidates|).rounds == c.rounds + 1
  {
  }

  lemma NothingLeft(target: Next, prompt: seq<int>, maxNew: nat, eos: int, generated: seq<int>)
    requires Continues(target, prompt, maxNew, eos, generated) && (|generated| >= maxNew || Ended(prompt + generated, eos))
    ensures generated == Greedy(target, prompt, maxNew, eos)
  {
  }

  lemma WithinLeft(target: Next, prompt: seq<int>, maxNew: nat, eos: int, generated: seq<int>, emitted: seq<int>)
    requires Continues(target, prompt, maxNew, eos, generated) && Continues(target, prompt + generated, maxNew - |generated|, eos, emitted)
    ensures Continues(target, prompt, maxNew, eos, generated + emitted) && |generated + emitted| <= maxNew
  {
    ContinuesTransitive(target, prompt, maxNew, eos, generated, emitted);
  }
}
