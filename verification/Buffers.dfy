/** Copying a contiguous run into a flat buffer. */
module Buffers {
  /** The elements of one run, at most, differ. */
  ghost predicate RunWritten<T>(before: seq<T>, after: seq<T>, start: nat, run: seq<T>) {
    && |after| == |before| && start + |run| <= |after| && after[start..start + |run|] == run
    && after[..start] == before[..start] && after[start + |run|..] == before[start + |run|..]
  }

  lemma RunAt<T>(before: seq<T>, after: seq<T>, start: nat, run: seq<T>, i: nat)
    requires RunWritten(before, after, start, run) && i < |after|
    ensures after[i] == if start <= i < start + |run| then run[i - start] else before[i]
  {
    if i < start {
      assert after[i] == after[..start][i] == before[..start][i];
    } else if i < start + |run| {
      assert after[i] == after[start..start + |run|][i - start];
    } else {
      assert after[i] == after[start + |run|..][i - start - |run|] == before[start + |run|..][i - start - |run|];
    }
  }

  /** Copies `run` into place, as std::copy_n does. */
  method WriteRun<T>(a: array<T>, start: nat, run: seq<T>)
    requires start + |run| <= a.Length
    modifies a
    ensures RunWritten(old(a[..]), a[..], start, run)
  {
    for i := 0 to |run|
      invariant a[start..start + i] == run[..i]
      invariant a[..start] == old(a[..start]) && a[start + i..] == old(a[start + i..])
    {
      a[start + i] := run[i];
    }
  }
}
