/** How many pages a batch append needs (examples/serving_scheduler/native/paged_kv_cache.h): a forecast made from the
    live tables alone, blind to snapshots, to evictions and to where copies go. */
module ServingDemand {
  import opened Prelude
  import opened PageKeys
  import opened KvPool
  import opened ServingStage

  datatype AppendReply = Done | Exhausted | Rejected

  predicate TargetOk(id: int, length: int) {
    id >= 1 && 1 <= length <= 4096
  }

  /** The lengths after a batch: each target's in turn. */
  function FinalLengths(lengths: map<int, nat>, targets: seq<(int, int)>): map<int, nat> {
    if targets == [] then lengths
    else
      var n := |targets| - 1;
      var before := FinalLengths(lengths, targets[..n]);
      if targets[n].1 >= 0 then before[targets[n].0 := targets[n].1] else before
  }

  const NoPages: multiset<nat> := multiset{}

  /** Sequences grown so far, page holders left among the tables, and distinct pages the tables need. */
  datatype Forecast = Forecast(grown: set<int>, left: multiset<nat>, pages: int)

  /** The partly filled last page of a table. */
  predicate HasTail(s: Stage, id: int, size: nat)
    requires size > 0
  {
    id in s.tables && s.tables[id] != [] && LengthOf(s, id) % size != 0
  }

  function TailOf(table: seq<nat>): nat
    requires table != []
  {
    table[|table| - 1]
  }

  /** A first growth moves off a tail that another table still holds. */
  ghost predicate MovesOff(s0: Stage, f: Forecast, id: int, size: nat)
    requires size > 0
  {
    id !in f.grown && HasTail(s0, id, size) && f.left[TailOf(s0.tables[id])] > 1
  }

  ghost function AfterTail(s0: Stage, f: Forecast, id: int, size: nat): Forecast
    requires size > 0
  {
    if MovesOff(s0, f, id, size) then Forecast(f.grown + {id}, f.left - multiset{TailOf(s0.tables[id])}, f.pages + 1)
    else f.(grown := f.grown + {id})
  }

  ghost function AfterTarget(s0: Stage, f: Forecast, id: int, have: nat, length: nat, size: nat): Forecast
    requires size > 0
  {
    if length <= have then f
    else
      var g := AfterTail(s0, f, id, size);
      g.(pages := g.pages + PageCount(length, size) - PageCount(have, size))
  }

  ghost function FirstForecast(s0: Stage): Forecast {
    Forecast({}, Bag(s0.tables), |Support(Bag(s0.tables))|)
  }

  /** The outcome of a batch: the first invalid target rejects it, and the first one to need more distinct pages than the
      pool has exhausts it. */
  ghost function Foreseen(s0: Stage, targets: seq<(int, int)>, size: nat): (AppendReply, Forecast)
    requires size > 0
  {
    if targets == [] then (Done, FirstForecast(s0))
    else
      var n := |targets| - 1;
      var (r, f) := Foreseen(s0, targets[..n], size);
      if r != Done then (r, f)
      else NextForecast(s0, f, LengthIn(FinalLengths(s0.lengths, targets[..n]), targets[n].0), targets[n].0, targets[n].1, size)
  }

  function LengthIn(lengths: map<int, nat>, id: int): nat {
    if id in lengths then lengths[id] else 0
  }

  ghost function NextForecast(s0: Stage, f: Forecast, have: nat, id: int, length: int, size: nat): (AppendReply, Forecast)
    requires size > 0
  {
    if !TargetOk(id, length) || length < have then (Rejected, f)
    else
      var g := AfterTarget(s0, f, id, have, length, size);
      (if length > have && g.pages > |s0.pool.refs| then Exhausted else Done, g)
  }

  /** A refusal is final. */
  lemma {:induction false} RefusalStays(s0: Stage, targets: seq<(int, int)>, i: nat, size: nat)
    requires size > 0 && i <= |targets| && Foreseen(s0, targets[..i], size).0 != Done
    ensures Foreseen(s0, targets, size) == Foreseen(s0, targets[..i], size)
    decreases |targets|
  {
    hide NextForecast;
    if i == |targets| {
      assert targets[..i] == targets;
    } else {
      var n := |targets| - 1;
      assert targets[..n][..i] == targets[..i];
      RefusalStays(s0, targets[..n], i, size);
    }
  }

  /** What the outcome means: done only if every target is valid and not shorter than what precedes it, rejected because
      of the first one that is not, exhausted because of the first one that needs more pages than the pool has. */
  lemma {:induction false} ForeseenMeans(s0: Stage, targets: seq<(int, int)>, size: nat)
    requires size > 0
    ensures Foreseen(s0, targets, size).0 == Done ==> forall i :: 0 <= i < |targets| ==> ValidTarget(s0, targets, i)
    ensures Foreseen(s0, targets, size).0 != Done ==> exists i :: Refuses(s0, targets, size, i, Foreseen(s0, targets, size).0)
    decreases |targets|
  {
    hide Foreseen, ValidTarget, Refuses;
    if targets == [] {
      NothingForeseen(s0, size);
    } else {
      var n := |targets| - 1;
      var front := targets[..n];
      ForeseenMeans(s0, front, size);
      forall i | 0 <= i < n ensures ValidTarget(s0, front, i) ==> ValidTarget(s0, targets, i) {
        FrontTarget(s0, targets, n, i);
      }
      if Foreseen(s0, front, size).0 == Done {
        LastForeseen(s0, targets, size);
      } else {
        RefusalStays(s0, targets, n, size);
        var reply := Foreseen(s0, front, size).0;
        var i :| Refuses(s0, front, size, i, reply);
        FrontRefuses(s0, targets, size, n, i, reply);
      }
    }
  }

  lemma NothingForeseen(s0: Stage, size: nat)
    requires size > 0
    ensures Foreseen(s0, [], size).0 == Done
  {
  }

  lemma LastForeseen(s0: Stage, targets: seq<(int, int)>, size: nat)
    requires size > 0 && targets != [] && Foreseen(s0, targets[..|targets| - 1], size).0 == Done
    ensures Foreseen(s0, targets, size).0 == Done ==> ValidTarget(s0, targets, |targets| - 1)
    ensures Foreseen(s0, targets, size).0 != Done ==> Refuses(s0, targets, size, |targets| - 1, Foreseen(s0, targets, size).0)
  {
    hide AfterTarget;
    var n := |targets| - 1;
    assert targets[..n + 1] == targets;
  }

  lemma FrontTarget(s0: Stage, targets: seq<(int, int)>, n: nat, i: nat)
    requires i < n <= |targets|
    ensures ValidTarget(s0, targets[..n], i) == ValidTarget(s0, targets, i)
  {
    assert targets[..n][..i] == targets[..i];
  }

  lemma FrontRefuses(s0: Stage, targets: seq<(int, int)>, size: nat, n: nat, i: int, reply: AppendReply)
    requires size > 0 && n <= |targets| && Refuses(s0, targets[..n], size, i, reply)
    ensures Refuses(s0, targets, size, i, reply)
  {
    hide Foreseen;
    FrontTarget(s0, targets, n, i);
    hide ValidTarget;
    assert targets[..n][..i] == targets[..i];
    assert targets[..n][..i + 1] == targets[..i + 1];
  }

  /** A target within the limits that does not shrink its sequence. */
  ghost predicate ValidTarget(s0: Stage, targets: seq<(int, int)>, i: nat)
    requires i < |targets|
  {
    && targets[i].0 >= 1 && 1 <= targets[i].1 <= 4096
    && var lengths := FinalLengths(s0.lengths, targets[..i]);
    targets[i].0 in lengths ==> lengths[targets[i].0] <= targets[i].1
  }

  /** Target `i` is the first one to refuse the batch: with an invalid length, or by needing more pages than there are. */
  ghost predicate Refuses(s0: Stage, targets: seq<(int, int)>, size: nat, i: int, reply: AppendReply)
    requires size > 0
  {
    && 0 <= i < |targets|
    && Foreseen(s0, targets[..i], size).0 == Done && Foreseen(s0, targets[..i + 1], size).0 == reply
    && (if reply == Rejected then !ValidTarget(s0, targets, i)
        else ValidTarget(s0, targets, i) && Foreseen(s0, targets[..i + 1], size).1.pages > |s0.pool.refs|)
  }

  // ---- Distinct pages ----

  lemma SupportAdd(bag: multiset<nat>, b: nat)
    requires bag[b] == 0
    ensures |Support(bag + multiset{b})| == |Support(bag)| + 1
  {
    assert Support(bag + multiset{b}) == Support(bag) + {b};
  }

  lemma SupportMove(before: multiset<nat>, after: multiset<nat>, a: nat, b: nat)
    requires before[a] > 0 && before[b] == 0 && after + multiset{a} == before + multiset{b}
    ensures |Support(after)| == |Support(before)| + if before[a] > 1 then 1 else 0
  {
    forall x: nat ensures x != a && x != b ==> after[x] == before[x] {
      assert (after + multiset{a})[x] == (before + multiset{b})[x];
    }
    assert (after + multiset{a})[a] == (before + multiset{b})[a];
    assert (after + multiset{a})[b] == (before + multiset{b})[b];
    if before[a] > 1 {
      assert Support(after) == Support(before) + {b};
    } else {
      assert Support(after) == Support(before) - {a} + {b};
    }
  }

  /** Tables never hold more distinct pages than there are; with nothing free and no snapshot they hold them all. */
  lemma PagesInUse(s: Stage)
    requires Counts(s.pool, Held(s))
    ensures |Support(Bag(s.tables))| <= |s.pool.refs|
    ensures s.pool.free == [] && s.prefixes.Keys == {} ==> |Support(Bag(s.tables))| == |s.pool.refs| && Held(s) == Bag(s.tables)
  {
    FreePlusDistinct(s.pool, Held(s));
    SupportMonotone(Bag(s.tables), Held(s));
    if s.prefixes.Keys == {} {
      assert s.prefixes == map[];
      assert Held(s) == Bag(s.tables);
    }
  }

  // ---- The forecast follows the stage ----

  ghost predicate SameHolders(bag: multiset<nat>, left: multiset<nat>, table: seq<nat>) {
    forall j :: 0 <= j < |table| ==> bag[table[j]] == left[table[j]]
  }

  function TableIn(tables: map<int, seq<nat>>, id: int): seq<nat> {
    if id in tables then tables[id] else []
  }

  /** The forecast counts the distinct pages of the tables and of `extra`, and the holders of every page of a table not
      grown yet. */
  ghost predicate Tracks(s0: Stage, tables: map<int, seq<nat>>, extra: multiset<nat>, f: Forecast) {
    && |Support(Bag(tables) + extra)| == f.pages
    && forall id :: id in tables && id !in f.grown ==> tables[id] == TableIn(s0.tables, id) && SameHolders(Bag(tables) + extra, f.left, tables[id])
  }

  lemma TracksStart(s0: Stage)
    ensures Tracks(s0, s0.tables, NoPages, FirstForecast(s0))
  {
    hide Support;
    Alone(Bag(s0.tables));
    hide Bag;
  }

  lemma Alone(a: multiset<nat>)
    ensures a + multiset{} == a
  {
  }

  lemma TracksPages(s0: Stage, tables: map<int, seq<nat>>, extra: multiset<nat>, f: Forecast)
    requires Tracks(s0, tables, extra, f)
    ensures |Support(Bag(tables) + extra)| == f.pages
  {
    hide Bag, Support;
  }

  lemma BagPushed(tables: map<int, seq<nat>>, id: int, b: nat, extra: multiset<nat>)
    requires id in tables
    ensures Bag(tables[id := tables[id] + [b]]) + extra == Bag(tables) + extra + multiset{b}
  {
    BagUpdate(tables, id, tables[id] + [b]);
    hide Bag;
    PushAlgebra(Bag(tables[id := tables[id] + [b]]), Bag(tables), multiset(tables[id]), b, extra);
  }

  /** The table with its last page replaced. */
  function Moved(table: seq<nat>, b: nat): seq<nat>
    requires table != []
  {
    table[|table| - 1 := b]
  }

  lemma BagMoved(tables: map<int, seq<nat>>, id: int, b: nat, extra: multiset<nat>)
    requires id in tables && tables[id] != []
    ensures var n := |tables[id]| - 1;
      Bag(tables[id := Moved(tables[id], b)]) + extra + multiset{tables[id][n]} == Bag(tables) + extra + multiset{b}
  {
    var table := tables[id];
    var n := |table| - 1;
    BagUpdate(tables, id, Moved(table, b));
    hide Bag;
    assert table == table[..n] + [table[n]] && Moved(table, b) == table[..n] + [b];
    CopyAlgebra(Bag(tables[id := Moved(table, b)]), Bag(tables), multiset(table[..n]), table[n], b, extra);
  }

  lemma TablePageHeld(tables: map<int, seq<nat>>, id: int, j: nat)
    requires id in tables && j < |tables[id]|
    ensures Bag(tables)[tables[id][j]] >= 1
  {
    BagRemove(tables, id);
    assert tables[id][j] in multiset(tables[id]);
    hide Bag;
  }

  lemma TracksPush(s0: Stage, tables: map<int, seq<nat>>, extra: multiset<nat>, f: Forecast, id: int, b: nat)
    requires Tracks(s0, tables, extra, f) && id in tables && id in f.grown && (Bag(tables) + extra)[b] == 0
    ensures Tracks(s0, tables[id := tables[id] + [b]], extra, f.(pages := f.pages + 1))
  {
    hide Bag, Support;
    BagPushed(tables, id, b, extra);
    SupportAdd(Bag(tables) + extra, b);
    var after := tables[id := tables[id] + [b]];
    forall x | x in after && x !in f.grown ensures SameHolders(Bag(after) + extra, f.left, after[x]) {
      forall j | 0 <= j < |after[x]| ensures (Bag(after) + extra)[after[x][j]] == f.left[after[x][j]] {
        TablePageHeld(tables, x, j);
      }
    }
  }

  lemma TracksStay(s0: Stage, s: Stage, extra: multiset<nat>, f: Forecast, id: int, size: nat)
    requires size > 0 && Tracks(s0, s.tables, extra, f) && id in s.tables && (id !in f.grown ==> LengthOf(s, id) == LengthOf(s0, id))
    requires HasTail(s, id, size) && id !in f.grown ==> (Bag(s.tables) + extra)[TailOf(s.tables[id])] <= 1
    ensures Tracks(s0, s.tables, extra, AfterTail(s0, f, id, size))
  {
    hide Bag, Support;
    assert !MovesOff(s0, f, id, size);
  }

  /** Moving one table off its tail adds a distinct page exactly when somebody else among the tables and `extra` holds it. */
  lemma TracksMove(s0: Stage, s: Stage, extra: multiset<nat>, f: Forecast, id: int, b: nat, size: nat)
    requires size > 0 && Tracks(s0, s.tables, extra, f) && id in s.tables && id !in f.grown && LengthOf(s, id) == LengthOf(s0, id)
    requires HasTail(s, id, size) && (Bag(s.tables) + extra)[b] == 0
    ensures Tracks(s0, s.tables[id := Moved(s.tables[id], b)], extra, AfterTail(s0, f, id, size))
  {
    hide Bag, Support;
    var table := s.tables[id];
    var n := |table| - 1;
    var tail, bag, g := table[n], Bag(s.tables) + extra, AfterTail(s0, f, id, size);
    var after := s.tables[id := Moved(table, b)];
    BagMoved(s.tables, id, b, extra);
    TablePageHeld(s.tables, id, n);
    SupportMove(bag, Bag(after) + extra, tail, b);
    assert bag[tail] == f.left[tail];
    forall x | x in after && x !in g.grown ensures after[x] == TableIn(s0.tables, x) && SameHolders(Bag(after) + extra, g.left, after[x]) {
      forall j | 0 <= j < |after[x]| ensures (Bag(after) + extra)[after[x][j]] == g.left[after[x][j]] {
        MovedHolders(s.tables, after, extra, f.left, x, j, id, b);
      }
    }
  }

  /** Moving one table off a page lowers the holders of that page, and of nothing else another table has. */
  lemma MovedHolders(tables: map<int, seq<nat>>, after: map<int, seq<nat>>, extra: multiset<nat>, left: multiset<nat>, x: int, j: nat, id: int, b: nat)
    requires id in tables && tables[id] != [] && x in tables && x != id && j < |tables[x]| && (Bag(tables) + extra)[b] == 0
    requires Bag(after) + extra + multiset{TailOf(tables[id])} == Bag(tables) + extra + multiset{b}
    requires SameHolders(Bag(tables) + extra, left, tables[x]) && SameHolders(Bag(tables) + extra, left, tables[id])
    ensures var tail, y := TailOf(tables[id]), tables[x][j];
      (Bag(after) + extra)[y] == (if left[tail] > 1 then left - multiset{tail} else left)[y]
  {
    var tail, y := TailOf(tables[id]), tables[x][j];
    TablePageHeld(tables, x, j);
    BagTwoHolders(tables, x, id, y);
    hide Bag;
    assert (Bag(tables) + extra)[y] == left[y];
    assert (Bag(after) + extra + multiset{tail})[y] == (Bag(tables) + extra + multiset{b})[y];
    assert tail == tables[id][|tables[id]| - 1];
    assert left[tail] == (Bag(tables) + extra)[tail];
  }

  lemma TracksAdded(s0: Stage, s: Stage, extra: multiset<nat>, f: Forecast, id: int)
    requires Tracks(s0, s.tables, extra, f) && (id in s0.tables ==> id in s.tables)
    ensures Tracks(s0, s.tables[id := TableIn(s.tables, id)], extra, f)
  {
    if id in s.tables {
      assert s.tables[id := TableIn(s.tables, id)] == s.tables;
    } else {
      BagUpdate(s.tables, id, []);
      hide Bag, Support;
      assert Bag(s.tables[id := []]) == Bag(s.tables);
    }
  }

  // ---- Whether snapshots are evicted ----

  /** The pages in use after a batch that evicts nothing: like the forecast, but snapshots count as holders too. */
  ghost function Undisturbed(s0: Stage, targets: seq<(int, int)>, size: nat): Forecast
    requires size > 0
  {
    if targets == [] then Forecast({}, Held(s0), |Support(Held(s0))|)
    else
      var n := |targets| - 1;
      var have := LengthIn(FinalLengths(s0.lengths, targets[..n]), targets[n].0);
      if targets[n].1 < 0 then Undisturbed(s0, targets[..n], size)
      else AfterTarget(s0, Undisturbed(s0, targets[..n], size), targets[n].0, have, targets[n].1, size)
  }

  /** While no snapshot was evicted the count is exact; once one was, the count has passed the size of the pool. */
  ghost predicate HeldTracks(s0: Stage, s: Stage, h: Forecast) {
    if s.prefixes.Keys == s0.prefixes.Keys then s.prefixes == s0.prefixes && Tracks(s0, s.tables, Bag(s0.prefixes), h)
    else s.prefixes.Keys < s0.prefixes.Keys && h.pages > |s0.pool.refs|
  }

  lemma HeldStart(s0: Stage)
    ensures HeldTracks(s0, s0, Forecast({}, Held(s0), |Support(Held(s0))|))
  {
    hide Bag, Support;
  }

  /** More demand never makes evictions unnecessary. */
  lemma HeldMore(s0: Stage, s: Stage, t: Stage, h: Forecast, g: Forecast)
    requires HeldTracks(s0, s, h) && s.prefixes.Keys != s0.prefixes.Keys && t.prefixes.Keys <= s.prefixes.Keys && g.pages >= h.pages
    ensures HeldTracks(s0, t, g)
  {
    hide Tracks;
  }

  lemma TailCosts(s0: Stage, f: Forecast, id: int, size: nat)
    requires size > 0
    ensures AfterTail(s0, f, id, size).pages >= f.pages && AfterTail(s0, f, id, size).grown == f.grown + {id}
  {
  }
}
