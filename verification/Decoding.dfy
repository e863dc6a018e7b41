/** Standalone greedy decoding of one request: the reference every served request is compared with. */
module Decoding {
  import opened Prelude
  import opened PageKeys
  import opened CausalModel

  datatype Request = Request(id: string, prompt: seq<Token>, maxNew: nat, eos: Option<Token>)

  /** The first index of a largest element. */
  ghost predicate IsArgmax(s: seq<real>, i: nat) {
    i < |s| && (forall j :: 0 <= j < |s| ==> s[j] <= s[i]) && forall j :: 0 <= j < i ==> s[j] < s[i]
  }

  function Argmax(s: seq<real>): (i: nat)
    requires s != []
    ensures IsArgmax(s, i)
    decreases |s|
  {
    var n := |s| - 1;
    if n == 0 then 0
    else
      var best := Argmax(s[..n]);
      assert s[..n][best] == s[best] && forall j :: 0 <= j < n ==> s[..n][j] == s[j];
      if s[n] > s[best] then n else best
  }

  lemma ArgmaxUnique(s: seq<real>, i: nat)
    requires s != [] && IsArgmax(s, i)
    ensures Argmax(s) == i
  {
  }

  /** std::max_element over the logits. */
  method MaxElement(s: seq<real>) returns (best: nat)
    requires s != []
    ensures best == Argmax(s)
  {
    best := 0;
    for i := 1 to |s|
      invariant best < i && (forall j :: 0 <= j < i ==> s[j] <= s[best]) && forall j :: 0 <= j < best ==> s[j] < s[best]
    {
      if s[best] < s[i] {
        best := i;
      }
    }
    ArgmaxUnique(s, best);
  }

  /** The next greedy token after the history `h`. */
  function Sample(m: Model, h: seq<Token>): nat {
    if h == [] || Logits(m, h) == [] then 0 else Argmax(Logits(m, h))
  }

  /** Greedy tokens after `prompt + out`: at most `left`, ending with the first end-of-sequence token. */
  function Rest(m: Model, prompt: seq<Token>, eos: Option<Token>, left: nat, out: seq<Token>): seq<Token>
    decreases left
  {
    if left == 0 then []
    else
      var t := Sample(m, prompt + out);
      if eos == Some(t) then [t] else [t] + Rest(m, prompt, eos, left - 1, out + [t])
  }

  function Standalone(m: Model, r: Request): seq<Token> {
    Rest(m, r.prompt, r.eos, r.maxNew, [])
  }

  /** `out` is what standalone decoding has produced so far, with more to come. */
  ghost predicate Progress(m: Model, r: Request, out: seq<Token>) {
    |out| < r.maxNew && out + Rest(m, r.prompt, r.eos, r.maxNew - |out|, out) == Standalone(m, r)
  }

  lemma ProgressStart(m: Model, r: Request)
    requires r.maxNew > 0
    ensures Progress(m, r, [])
  {
  }

  /** One more greedy token either completes the standalone result or continues it. */
  lemma ProgressStep(m: Model, r: Request, out: seq<Token>)
    requires Progress(m, r, out)
    ensures var t := Sample(m, r.prompt + out);
      if r.eos == Some(t) || |out| + 1 == r.maxNew then out + [t] == Standalone(m, r)
      else Progress(m, r, out + [t])
  {
    var t := Sample(m, r.prompt + out);
    hide Sample;
    if !(r.eos == Some(t)) {
      var rest := Rest(m, r.prompt, r.eos, r.maxNew - |out| - 1, out + [t]);
      assert out + ([t] + rest) == out + [t] + rest;
    }
  }

  lemma ProgressPrefix(m: Model, r: Request, out: seq<Token>)
    requires Progress(m, r, out)
    ensures out < Standalone(m, r)
  {
    assert Rest(m, r.prompt, r.eos, r.maxNew - |out|, out) != [];
  }

  /** Token `k` of a greedy result `r`: the greedy choice after its prefix; the end-of-sequence token, or the length
      limit, is where the result ends. */
  ghost predicate GreedyAt(m: Model, h: seq<Token>, eos: Option<Token>, left: nat, r: seq<Token>, k: nat)
    requires k < |r|
  {
    && r[k] == Sample(m, h + r[..k])
    && (eos == Some(r[k]) ==> k + 1 == |r|)
    && (k + 1 == |r| ==> eos == Some(r[k]) || |r| == left)
  }

  lemma GreedyShift(m: Model, h: seq<Token>, t: Token, eos: Option<Token>, left: nat, rest: seq<Token>, k: nat)
    requires k < |rest| && GreedyAt(m, h + [t], eos, left, rest, k)
    ensures GreedyAt(m, h, eos, left + 1, [t] + rest, k + 1)
  {
    hide Sample;
    var r := [t] + rest;
    assert r[..k + 1] == [t] + rest[..k];
    assert h + ([t] + rest[..k]) == h + [t] + rest[..k];
  }

  /** The standalone result: every token is the greedy choice after its prefix, and it stops at the first
      end-of-sequence token or at the length limit, whichever comes first. */
  lemma {:induction false} RestCharacterized(m: Model, prompt: seq<Token>, eos: Option<Token>, left: nat, out: seq<Token>)
    ensures var r := Rest(m, prompt, eos, left, out);
      && |r| <= left && (left > 0 ==> r != [])
      && forall k :: 0 <= k < |r| ==> GreedyAt(m, prompt + out, eos, left, r, k)
    decreases left
  {
    hide Sample;
    if left > 0 {
      var t := Sample(m, prompt + out);
      var r := Rest(m, prompt, eos, left, out);
      assert prompt + out + r[..0] == prompt + out;
      if eos != Some(t) {
        var rest := Rest(m, prompt, eos, left - 1, out + [t]);
        RestCharacterized(m, prompt, eos, left - 1, out + [t]);
        assert prompt + (out + [t]) == prompt + out + [t];
        hide Rest;
        forall k | 0 <= k < |r| ensures GreedyAt(m, prompt + out, eos, left, r, k) {
          if k > 0 {
            GreedyShift(m, prompt + out, t, eos, left - 1, rest, k - 1);
          }
        }
      }
    }
  }

  /** Spelled out: every token is a first largest logit after the prompt and the tokens before it, none but the last is the
      end of sequence, and there are at most `maxNew`. */
  ghost predicate GreedyTokens(m: Model, r: Request, out: seq<Token>) {
    && r.prompt != [] && |out| <= r.maxNew
    && (forall k :: 0 <= k < |out| ==> out[k] >= 0 && IsArgmax(Logits(m, r.prompt + out[..k]), out[k]))
    && forall k :: 0 <= k < |out| - 1 ==> r.eos != Some(out[k])
  }

  /** Every nonempty history has logits. */
  ghost predicate HasLogits(m: Model) {
    forall h: seq<Token> :: h != [] ==> Logits(m, h) != []
  }

  lemma SampleIsArgmax(m: Model, h: seq<Token>)
    requires HasLogits(m) && h != []
    ensures IsArgmax(Logits(m, h), Sample(m, h))
  {
    hide Logits;
  }

  /** Any front part of the standalone result is greedy; a whole one stops at the end of sequence or at the limit. */
  lemma StandaloneMeans(m: Model, r: Request, out: seq<Token>)
    requires HasLogits(m) && r.prompt != [] && r.maxNew >= 1 && out <= Standalone(m, r)
    ensures GreedyTokens(m, r, out)
    ensures out == Standalone(m, r) ==> out != [] && (|out| < r.maxNew ==> r.eos == Some(out[|out| - 1]))
  {
    hide HasLogits, IsArgmax, Sample, Rest, GreedyAt, Logits;
    var all := Standalone(m, r);
    RestCharacterized(m, r.prompt, r.eos, r.maxNew, []);
    assert r.prompt + [] == r.prompt;
    forall k | 0 <= k < |out| ensures out[k] >= 0 && IsArgmax(Logits(m, r.prompt + out[..k]), out[k]) && (k < |all| - 1 ==> r.eos != Some(out[k])) {
      FrontGreedy(m, r, all, out, k);
    }
    if out == all {
      LastGreedy(m, r, all);
    }
  }

  lemma FrontGreedy(m: Model, r: Request, all: seq<Token>, out: seq<Token>, k: nat)
    requires HasLogits(m) && r.prompt != [] && out <= all && k < |out| && GreedyAt(m, r.prompt, r.eos, r.maxNew, all, k)
    ensures out[k] >= 0 && IsArgmax(Logits(m, r.prompt + out[..k]), out[k]) && (k < |all| - 1 ==> r.eos != Some(out[k]))
  {
    hide HasLogits, IsArgmax, Sample, Logits;
    assert all[..k] == out[..k];
    SampleIsArgmax(m, r.prompt + out[..k]);
  }

  lemma LastGreedy(m: Model, r: Request, all: seq<Token>)
    requires all != [] && GreedyAt(m, r.prompt, r.eos, r.maxNew, all, |all| - 1)
    ensures |all| < r.maxNew ==> r.eos == Some(all[|all| - 1])
  {
    hide Sample;
  }
}
