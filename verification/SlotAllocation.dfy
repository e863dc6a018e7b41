/** Interval-to-slot allocation (src/runtime/memory_plan.cpp): intervals in order of their first step, each to the
    available slot that grows least. */
module SlotAllocation {
  import opened Prelude

  /** A value is needed from `first` to `last`, both included. */
  datatype Lifetime = Lifetime(value: nat, first: nat, last: nat, bytes: nat)

  predicate Overlap(a: Lifetime, b: Lifetime) {
    a.first <= b.last && b.first <= a.last
  }

  predicate Before(a: Lifetime, b: Lifetime) {
    a.first < b.first || (a.first == b.first && a.value < b.value)
  }

  predicate Sorted(s: seq<Lifetime>) {
    forall i, j :: 0 <= i < j < |s| ==> s[i].first <= s[j].first
  }

  ghost predicate Proper(s: seq<Lifetime>) {
    Sorted(s) && forall i :: 0 <= i < |s| ==> s[i].first <= s[i].last
  }

  function Sum(s: seq<nat>): nat {
    if s == [] then 0 else Sum(s[..|s| - 1]) + s[|s| - 1]
  }

  lemma {:induction false} SumUpdate(s: seq<nat>, k: nat, x: nat)
    requires k < |s|
    ensures Sum(s[k := x]) + s[k] == Sum(s) + x
    decreases |s|
  {
    var n := |s| - 1;
    if k < n {
      assert s[k := x][..n] == s[..n][k := x];
      SumUpdate(s[..n], k, x);
    } else {
      assert s[k := x][..n] == s[..n];
    }
  }

  lemma SumSnoc(s: seq<nat>, x: nat)
    ensures Sum(s + [x]) == Sum(s) + x
  {
    assert (s + [x])[..|s|] == s;
  }

  ghost function Bytes(s: seq<Lifetime>): (r: seq<nat>)
    ensures |r| == |s|
  {
    seq(|s|, i requires 0 <= i < |s| => s[i].bytes)
  }

  // ---- Liveness ----

  /** Indices of the intervals that contain step `t`. */
  ghost function LiveAt(s: seq<Lifetime>, t: nat): set<nat> {
    set i | 0 <= i < |s| && s[i].first <= t <= s[i].last
  }

  /** Intervals that share a slot never overlap. */
  ghost predicate Separate(s: seq<Lifetime>, slots: seq<nat>, capacities: seq<nat>)
    requires |slots| <= |s|
  {
    && (forall i :: 0 <= i < |slots| ==> slots[i] < |capacities| && s[i].bytes <= capacities[slots[i]])
    && (forall i, j :: 0 <= i < j < |slots| && slots[i] == slots[j] ==> s[i].last < s[j].first)
  }

  lemma {:induction false} InjectionBound(a: set<nat>, slots: seq<nat>, used: set<nat>)
    requires forall i :: i in a ==> i < |slots| && slots[i] in used
    requires forall i, j :: i in a && j in a && i != j ==> slots[i] != slots[j]
    ensures |a| <= |used|
    decreases |a|
  {
    if a != {} {
      var i :| i in a;
      InjectionBound(a - {i}, slots, used - {slots[i]});
    }
  }

  /** At every step the live intervals sit in different slots. */
  lemma LiveFits(s: seq<Lifetime>, slots: seq<nat>, capacities: seq<nat>, t: nat)
    requires |slots| == |s| && Separate(s, slots, capacities)
    ensures |LiveAt(s, t)| <= |capacities|
  {
    var used := Elements(Identity(|capacities|));
    ElementsCardinality(Identity(|capacities|));
    var live := LiveAt(s, t);
    forall i | i in live ensures slots[i] in used {
      assert Identity(|capacities|)[slots[i]] == slots[i];
    }
    forall i, j | i in live && j in live && i != j ensures slots[i] != slots[j] {
    }
    InjectionBound(live, slots, used);
  }

  // ---- The allocation loop ----

  /** The last interval put in each slot. */
  ghost predicate Latest(s: seq<Lifetime>, slots: seq<nat>, available: seq<nat>, latest: seq<nat>)
    requires |slots| <= |s|
  {
    && |latest| == |available|
    && (forall x :: 0 <= x < |latest| ==> latest[x] < |slots| && slots[latest[x]] == x && s[latest[x]].last == available[x])
    && (forall i :: 0 <= i < |slots| ==> slots[i] < |available| && s[i].last <= available[slots[i]])
  }

  /** Some step at which as many intervals are live as there are slots. */
  ghost predicate Peaks(s: seq<Lifetime>, n: nat) {
    exists t: nat :: |LiveAt(s, t)| >= n
  }

  lemma PeakGrows(s: seq<Lifetime>, i: nat, slots: seq<nat>, available: seq<nat>, latest: seq<nat>)
    requires Proper(s) && i < |s| && |slots| == i && Latest(s, slots, available, latest)
    requires forall x :: 0 <= x < |available| ==> available[x] >= s[i].first
    ensures Peaks(s, |available| + 1)
  {
    var t := s[i].first;
    var occupied := Elements(latest);
    assert NoDuplicates(latest);
    ElementsCardinality(latest);
    forall j | j in occupied ensures j in LiveAt(s, t) && j != i {
      var x :| 0 <= x < |latest| && latest[x] == j;
    }
    assert i in LiveAt(s, t);
    var all := occupied + {i};
    assert all <= LiveAt(s, t);
    assert LiveAt(s, t) == all + (LiveAt(s, t) - all);
    assert |LiveAt(s, t)| >= |available| + 1;
  }

  lemma Placed(s: seq<Lifetime>, slots: seq<nat>, capacities: seq<nat>, available: seq<nat>, latest: seq<nat>, i: nat, x: nat, capacities': seq<nat>, available': seq<nat>)
    requires Proper(s) && i < |s| && |slots| == i && Separate(s, slots, capacities) && |available| == |capacities| && Latest(s, slots, available, latest)
    requires x < |capacities| && available[x] < s[i].first
    requires capacities' == capacities[x := if capacities[x] < s[i].bytes then s[i].bytes else capacities[x]] && available' == available[x := s[i].last]
    ensures Separate(s, slots + [x], capacities') && Latest(s, slots + [x], available', latest[x := i])
  {
    var more := slots + [x];
    forall a, b | 0 <= a < b < |more| && more[a] == more[b] ensures s[a].last < s[b].first {
      if b == i {
        assert s[a].last <= available[slots[a]];
      }
    }
    forall j | 0 <= j < |more| ensures more[j] < |available'| && s[j].last <= available'[more[j]] {
      if j < i && slots[j] == x {
        assert s[j].last <= available[x];
      }
    }
  }

  lemma Opened(s: seq<Lifetime>, slots: seq<nat>, capacities: seq<nat>, available: seq<nat>, latest: seq<nat>, i: nat)
    requires Proper(s) && i < |s| && |slots| == i && Separate(s, slots, capacities) && |available| == |capacities| && Latest(s, slots, available, latest)
    ensures Separate(s, slots + [|capacities|], capacities + [s[i].bytes])
    ensures Latest(s, slots + [|capacities|], available + [s[i].last], latest + [i])
  {
  }

  /** The first available slot that has to grow least; none if every slot is still in use. */
  method ChooseSlot(capacities: seq<nat>, available: seq<nat>, interval: Lifetime) returns (selected: nat)
    requires |available| == |capacities|
    ensures selected <= |capacities|
    ensures selected == |capacities| ==> forall x :: 0 <= x < |available| ==> available[x] >= interval.first
    ensures selected < |capacities| ==>
      && available[selected] < interval.first
      && forall x :: 0 <= x < |capacities| && available[x] < interval.first ==>
           Growth(capacities[selected], interval.bytes) <= Growth(capacities[x], interval.bytes)
    ensures selected < |capacities| ==> forall x :: 0 <= x < |capacities| && available[x] < interval.first ==>
      var missing, other := interval.bytes - capacities[selected], interval.bytes - capacities[x];
      (if missing > 0 then missing else 0) <= (if other > 0 then other else 0)
    ensures selected < |capacities| ==> forall x :: 0 <= x < selected && available[x] < interval.first ==>
      Growth(capacities[selected], interval.bytes) < Growth(capacities[x], interval.bytes)
  {
    selected := |capacities|;
    var least := 0;
    for slot := 0 to |capacities|
      invariant selected == |capacities| || selected < slot
      invariant selected == |capacities| ==> forall x :: 0 <= x < slot ==> available[x] >= interval.first
      invariant selected < slot ==>
        && available[selected] < interval.first && least == Growth(capacities[selected], interval.bytes)
        && (forall x :: 0 <= x < slot && available[x] < interval.first ==> least <= Growth(capacities[x], interval.bytes))
        && forall x :: 0 <= x < selected && available[x] < interval.first ==> least < Growth(capacities[x], interval.bytes)
    {
      if available[slot] < interval.first {
        var growth := Growth(capacities[slot], interval.bytes);
        if selected == |capacities| || growth < least {
          selected, least := slot, growth;
        }
      }
    }
  }

  function Growth(capacity: nat, bytes: nat): nat {
    if bytes > capacity then bytes - capacity else 0
  }

  /** Slots for all intervals: no overlap within a slot, as many slots as the peak number of live intervals, and together
      never more than one buffer per interval. */
  method AssignSlots(s: seq<Lifetime>) returns (slots: seq<nat>, capacities: seq<nat>)
    requires Proper(s)
    ensures |slots| == |s| && Separate(s, slots, capacities)
    ensures (forall t: nat :: |LiveAt(s, t)| <= |capacities|) && exists t: nat :: |LiveAt(s, t)| == |capacities|
    ensures Sum(capacities) <= Sum(Bytes(s))
    ensures forall c :: 0 <= c < |capacities| ==> SomeoneFills(s, slots, c, capacities[c])
  {
    hide Separate, Latest, Peaks, LiveAt, Proper, Sum, Growth;
    slots, capacities := [], [];
    var available: seq<nat> := [];
    ghost var latest: seq<nat> := [];
    NothingAssigned(s);
    for i := 0 to |s|
      invariant |slots| == i && |available| == |capacities| == |latest| && Separate(s, slots, capacities) && Latest(s, slots, available, latest)
      invariant Peaks(s, |capacities|) && Sum(capacities) <= Sum(Bytes(s)[..i])
      invariant forall c :: 0 <= c < |capacities| ==> SomeoneFills(s, slots, c, capacities[c])
    {
      var selected := ChooseSlot(capacities, available, s[i]);
      assert Bytes(s)[..i + 1] == Bytes(s)[..i] + [s[i].bytes];
      SumSnoc(Bytes(s)[..i], s[i].bytes);
      if selected == |capacities| {
        PeakGrows(s, i, slots, available, latest);
        Opened(s, slots, capacities, available, latest, i);
        SumSnoc(capacities, s[i].bytes);
        capacities, available, latest := capacities + [s[i].bytes], available + [s[i].last], latest + [i];
      } else {
        var grown := if capacities[selected] < s[i].bytes then s[i].bytes else capacities[selected];
        Placed(s, slots, capacities, available, latest, i, selected, capacities[selected := grown], available[selected := s[i].last]);
        SumUpdate(capacities, selected, grown);
        capacities, available, latest := capacities[selected := grown], available[selected := s[i].last], latest[selected := i];
      }
      FilledStill(s, slots, selected);
      slots := slots + [selected];
    }
    assert Bytes(s)[..|s|] == Bytes(s);
    AllAssigned(s, slots, capacities);
  }

  /** Some interval in slot `c` needs exactly these bytes. */
  ghost predicate SomeoneFills(s: seq<Lifetime>, slots: seq<nat>, c: nat, bytes: nat) {
    exists i :: 0 <= i < |slots| && i < |s| && slots[i] == c && s[i].bytes == bytes
  }

  lemma FilledStill(s: seq<Lifetime>, slots: seq<nat>, selected: nat)
    requires |slots| < |s|
    ensures forall c: nat, bytes: nat :: SomeoneFills(s, slots, c, bytes) ==> SomeoneFills(s, slots + [selected], c, bytes)
    ensures SomeoneFills(s, slots + [selected], selected, s[|slots|].bytes)
  {
    var more := slots + [selected];
    assert more[|slots|] == selected;
    forall c: nat, bytes: nat | SomeoneFills(s, slots, c, bytes) ensures SomeoneFills(s, more, c, bytes) {
      var i :| 0 <= i < |slots| && slots[i] == c && s[i].bytes == bytes;
      assert more[i] == c;
    }
  }

  lemma NothingAssigned(s: seq<Lifetime>)
    ensures Separate(s, [], []) && Latest(s, [], [], []) && Peaks(s, 0) && Sum([]) == 0
  {
    assert |LiveAt(s, 0)| >= 0;
  }

  lemma AllAssigned(s: seq<Lifetime>, slots: seq<nat>, capacities: seq<nat>)
    requires |slots| == |s| && Separate(s, slots, capacities) && Peaks(s, |capacities|)
    ensures (forall t: nat :: |LiveAt(s, t)| <= |capacities|) && exists t: nat :: |LiveAt(s, t)| == |capacities|
  {
    hide Separate, LiveAt;
    forall t: nat ensures |LiveAt(s, t)| <= |capacities| {
      LiveFits(s, slots, capacities, t);
    }
    var t: nat :| |LiveAt(s, t)| >= |capacities|;
  }

  // ---- Sorting ----

  ghost predicate StrictlySorted(s: seq<Lifetime>) {
    forall i, j :: 0 <= i < j < |s| ==> Before(s[i], s[j])
  }

  /** Intervals by first step, then by value. */
  method SortIntervals(s: seq<Lifetime>) returns (r: seq<Lifetime>)
    requires forall i, j :: 0 <= i < j < |s| ==> s[i].value != s[j].value
    ensures StrictlySorted(r) && multiset(r) == multiset(s)
  {
    r := [];
    for k := 0 to |s|
      invariant StrictlySorted(r) && multiset(r) == multiset(s[..k])
    {
      assert s[..k + 1] == s[..k] + [s[k]];
      NewValue(s, r, k);
      r := InsertInterval(r, s[k]);
    }
    assert s[..|s|] == s;
  }

  lemma NewValue(s: seq<Lifetime>, r: seq<Lifetime>, k: nat)
    requires k < |s| && multiset(r) == multiset(s[..k]) && forall i, j :: 0 <= i < j < |s| ==> s[i].value != s[j].value
    ensures forall x :: 0 <= x < |r| ==> r[x].value != s[k].value
  {
    forall x | 0 <= x < |r| ensures r[x].value != s[k].value {
      assert r[x] in multiset(r);
      assert r[x] in s[..k];
    }
  }

  method InsertInterval(r: seq<Lifetime>, x: Lifetime) returns (t: seq<Lifetime>)
    requires StrictlySorted(r) && forall i :: 0 <= i < |r| ==> r[i].value != x.value
    ensures StrictlySorted(t) && multiset(t) == multiset(r) + multiset{x}
  {
    hide StrictlySorted;
    var i := |r|;
    while i > 0 && Before(x, r[i - 1])
      invariant 0 <= i <= |r|
      invariant forall k :: i <= k < |r| ==> Before(x, r[k])
    {
      i := i - 1;
    }
    t := r[..i] + [x] + r[i..];
    assert r == r[..i] + r[i..];
    Inserted(r, x, i);
  }

  lemma Inserted(r: seq<Lifetime>, x: Lifetime, i: nat)
    requires StrictlySorted(r) && i <= |r| && forall k :: 0 <= k < |r| ==> r[k].value != x.value
    requires (forall k :: i <= k < |r| ==> Before(x, r[k])) && (i > 0 ==> !Before(x, r[i - 1]))
    ensures StrictlySorted(r[..i] + [x] + r[i..])
  {
    var t := r[..i] + [x] + r[i..];
    forall a | 0 <= a < i ensures Before(r[a], x) {
      if a < i - 1 {
        assert Before(r[a], r[i - 1]);
      }
    }
    hide Before;
    forall a, b | 0 <= a < b < |t| ensures Before(t[a], t[b]) {
      if a < i && b > i {
        assert Before(r[a], r[b - 1]);
      } else if a > i {
        assert Before(r[a - 1], r[b - 1]);
      }
    }
  }
}
