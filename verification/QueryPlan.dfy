/** How the query planner shares the search budget among the evidence goals of a question. */
module QueryPlan {
  import opened Prelude

  const MAX_RETRIEVAL_QUERIES: nat := 6

  function Total(counts: seq<nat>): nat {
    if counts == [] then 0 else Total(counts[..|counts| - 1]) + counts[|counts| - 1]
  }

  function Lengths<T>(lists: seq<seq<T>>): (r: seq<nat>)
    ensures |r| == |lists| && forall i :: 0 <= i < |r| ==> r[i] == |lists[i]|
  {
    seq(|lists|, i requires 0 <= i < |lists| => |lists[i]|)
  }

  lemma {:induction false} TotalUpdate(counts: seq<nat>, i: nat, v: nat)
    requires i < |counts|
    ensures Total(counts[i := v]) == Total(counts) - counts[i] + v
    decreases |counts|
  {
    var n := |counts| - 1;
    assert counts[i := v][..n] == if i < n then counts[..n][i := v] else counts[..n];
    if i < n { TotalUpdate(counts[..n], i, v); }
  }

  lemma {:induction false} TotalMonotone(a: seq<nat>, b: seq<nat>)
    requires |a| == |b| && forall i :: 0 <= i < |a| ==> a[i] <= b[i]
    ensures Total(a) <= Total(b)
    ensures Total(a) == Total(b) ==> a == b
    decreases |a|
  {
    if a != [] {
      var n := |a| - 1;
      TotalMonotone(a[..n], b[..n]);
      if Total(a) == Total(b) { assert a == a[..n] + [a[n]] && b == b[..n] + [b[n]]; }
    }
  }

  // ---- the allocation ----

  /** Each goal has the first counts[i] of its own queries. */
  ghost predicate Prefixes<T>(granted: seq<seq<T>>, queries: seq<seq<T>>, counts: seq<nat>) {
    && |granted| == |queries| == |counts|
    && forall i :: 0 <= i < |queries| ==> counts[i] <= |queries[i]| && granted[i] == queries[i][..counts[i]]
  }

  /** Nobody is more than one query behind anybody else, or an equal one behind a later goal, unless exhausted. */
  ghost predicate Fair<T>(counts: seq<nat>, queries: seq<seq<T>>) {
    && |counts| == |queries|
    && (forall i, j :: 0 <= i < |counts| && 0 <= j < |counts| && counts[i] < |queries[i]| ==>
          counts[j] <= counts[i] + 1 && (i < j ==> counts[j] <= counts[i]))
  }

  /** In the middle of a round: the goals before `at` are one round ahead of those from `at` on. */
  ghost predicate MidRound<T>(counts: seq<nat>, queries: seq<seq<T>>, offset: nat, at: nat) {
    && |counts| == |queries|
    && forall i :: 0 <= i < |counts| ==>
         counts[i] == Min(|queries[i]|, if i < at then offset + 1 else offset)
  }

  lemma MidRoundIsFair<T>(counts: seq<nat>, queries: seq<seq<T>>, offset: nat, at: nat)
    requires MidRound(counts, queries, offset, at)
    ensures Fair(counts, queries)
  {}

  lemma GrantOne<T>(granted: seq<seq<T>>, queries: seq<seq<T>>, counts: seq<nat>, i: nat)
    requires Prefixes(granted, queries, counts) && i < |counts| && counts[i] < |queries[i]|
    ensures Prefixes(granted[i := granted[i] + [queries[i][counts[i]]]], queries, counts[i := counts[i] + 1])
    ensures Total(counts[i := counts[i] + 1]) == Total(counts) + 1
  {
    TotalUpdate(counts, i, counts[i] + 1);
    assert queries[i][..counts[i] + 1] == queries[i][..counts[i]] + [queries[i][counts[i]]];
  }

  /** What the allocation keeps: prefixes of every goal's queries, none empty, with `remaining` slots unspent. */
  ghost predicate Spending<T>(granted: seq<seq<T>>, queries: seq<seq<T>>, counts: seq<nat>, budget: nat, remaining: nat) {
    && Prefixes(granted, queries, counts)
    && (forall k :: 0 <= k < |counts| ==> counts[k] >= 1)
    && Total(counts) + remaining == budget - 1
  }

  /** Every goal's first query, before the rest of the budget is shared out. */
  method FirstQueries<T>(queries: seq<seq<T>>, budget: nat) returns (granted: seq<seq<T>>, ghost counts: seq<nat>)
    requires forall i :: 0 <= i < |queries| ==> queries[i] != []
    requires budget >= |queries| + 1
    ensures Spending(granted, queries, counts, budget, budget - 1 - |queries|)
    ensures MidRound(counts, queries, 1, 0)
  {
    granted, counts := [], [];
    for i := 0 to |queries|
      invariant |granted| == |counts| == i
      invariant forall k :: 0 <= k < i ==> granted[k] == [queries[k][0]] && counts[k] == 1
      invariant Total(counts) == i
    {
      granted := granted + [[queries[i][0]]];
      assert (counts + [1])[..i] == counts;
      counts := counts + [1];
    }
  }

  lemma GrantSpends<T>(granted: seq<seq<T>>, queries: seq<seq<T>>, counts: seq<nat>, budget: nat, remaining: nat, i: nat)
    requires Spending(granted, queries, counts, budget, remaining) && remaining > 0
    requires i < |counts| && counts[i] < |queries[i]|
    ensures |granted| == |queries| == |counts|
    ensures Spending(granted[i := granted[i] + [queries[i][counts[i]]]], queries, counts[i := counts[i] + 1],
                     budget, remaining - 1)
  {
    GrantOne(granted, queries, counts, i);
    hide Total;
  }

  lemma NextInRound<T>(counts: seq<nat>, queries: seq<seq<T>>, offset: nat, i: nat)
    requires MidRound(counts, queries, offset, i) && i < |queries|
    ensures offset < |queries[i]| ==> counts[i] == offset && MidRound(counts[i := offset + 1], queries, offset, i + 1)
    ensures offset >= |queries[i]| ==> MidRound(counts, queries, offset, i + 1)
  {}

  /** One round: every goal that has another query gets it, until the slots are spent. */
  method SpendRound<T>(queries: seq<seq<T>>, before: seq<seq<T>>, ghost had: seq<nat>, budget: nat, slots: nat, offset: nat)
      returns (granted: seq<seq<T>>, ghost counts: seq<nat>, remaining: nat, added: bool, ghost at: nat)
    requires Spending(before, queries, had, budget, slots) && MidRound(had, queries, offset, 0)
    requires slots > 0 && offset >= 1
    ensures Spending(granted, queries, counts, budget, remaining) && MidRound(counts, queries, offset, at)
    ensures remaining > 0 ==> at == |queries|
    ensures added ==> remaining < slots
    ensures !added ==> remaining == slots && forall k :: 0 <= k < |queries| ==> |queries[k]| <= offset
  {
    assert |before| == |had| == |queries|;
    hide Spending, MidRound;
    granted, counts, remaining, added := before, had, slots, false;
    var i := 0;
    while i < |queries|
      invariant 0 <= i <= |queries| && 0 < remaining <= slots
      invariant Spending(granted, queries, counts, budget, remaining) && MidRound(counts, queries, offset, i)
      invariant |granted| == |counts| == |queries|
      invariant added ==> remaining < slots
      invariant !added ==> remaining == slots && forall k :: 0 <= k < i ==> |queries[k]| <= offset
    {
      if offset < |queries[i]| {
        NextInRound(counts, queries, offset, i);
        GrantSpends(granted, queries, counts, budget, remaining, i);
        granted := granted[i := granted[i] + [queries[i][offset]]];
        counts := counts[i := offset + 1];
        remaining := remaining - 1;
        added := true;
        if remaining == 0 {
          at := i + 1;
          return;
        }
      } else {
        NextInRound(counts, queries, offset, i);
      }
      i := i + 1;
    }
    at := i;
  }

  /**
   The allocation, for any number of goals and any budget that leaves each goal its first query beside the
   question itself.
   */
  method Allocate<T>(queries: seq<seq<T>>, budget: nat) returns (granted: seq<seq<T>>)
    requires forall i :: 0 <= i < |queries| ==> queries[i] != []
    requires budget >= |queries| + 1
    ensures Prefixes(granted, queries, Lengths(granted))
    ensures forall i :: 0 <= i < |granted| ==> granted[i] != []
    ensures Total(Lengths(granted)) == Min(budget - 1, Total(Lengths(queries)))
    ensures Fair(Lengths(granted), queries)
  {
    ghost var counts;
    granted, counts := FirstQueries(queries, budget);
    var remaining: nat := budget - 1 - |queries|;
    var offset := 1;
    ghost var round, at := 1, 0;
    while remaining > 0
      invariant offset >= 1
      invariant Spending(granted, queries, counts, budget, remaining) && MidRound(counts, queries, round, at)
      invariant remaining > 0 ==> round == offset && at == 0
      decreases remaining
    {
      var added;
      round := offset;
      granted, counts, remaining, added, at := SpendRound(queries, granted, counts, budget, remaining, offset);
      if !added { break; }
      offset := offset + 1;
      if remaining > 0 { round, at := offset, 0; }
    }
    TotalMonotone(counts, Lengths(queries));
    MidRoundIsFair(counts, queries, round, at);
    assert Lengths(granted) == counts;
    if remaining > 0 { assert counts == Lengths(queries); }
  }

  /** The shares are the only ones that are fair and spend the budget: no other division would do. */
  lemma {:induction false} FairSharesAreUnique<T>(a: seq<nat>, b: seq<nat>, queries: seq<seq<T>>)
    requires Fair(a, queries) && Fair(b, queries) && Total(a) == Total(b)
    requires forall i :: 0 <= i < |queries| ==> a[i] <= |queries[i]| && b[i] <= |queries[i]|
    ensures a == b
  {
    if exists i :: 0 <= i < |a| && a[i] < b[i] {
      var i :| 0 <= i < |a| && a[i] < b[i];
      forall j | 0 <= j < |a| ensures a[j] <= b[j] {}
      TotalMonotone(a, b);
    } else {
      TotalMonotone(b, a);
    }
  }

  // ---- the plan's query list ----

  datatype Query = Query(text: string)

  ghost predicate Known(kept: seq<Query>, q: Query, fold: Query -> string) {
    exists p :: p in kept && fold(p) == fold(q)
  }

  function Keys(kept: seq<Query>, fold: Query -> string): set<string> {
    set p | p in kept :: fold(p)
  }

  /** Duplicates, judged by the folded key, and empty queries are dropped; the first of each stays. */
  function Deduplicate(queries: seq<Query>, fold: Query -> string): seq<Query> {
    if queries == [] then []
    else
      var q, before := queries[|queries| - 1], Deduplicate(queries[..|queries| - 1], fold);
      if q.text == "" || fold(q) in Keys(before, fold) then before else before + [q]
  }

  method DeduplicateQueries(queries: seq<Query>, fold: Query -> string) returns (kept: seq<Query>)
    ensures kept == Deduplicate(queries, fold)
  {
    kept := [];
    var seen: set<string> := {};
    for i := 0 to |queries|
      invariant kept == Deduplicate(queries[..i], fold) && seen == Keys(kept, fold)
    {
      assert queries[..i + 1][..i] == queries[..i];
      var query := queries[i];
      var key := fold(query);
      if query.text != "" && key !in seen {
        seen := seen + {key};
        kept := kept + [query];
      }
    }
    assert queries[..|queries|] == queries;
  }

  /** A query that is not empty and whose key no earlier one has. */
  ghost predicate FirstOfItsKey(queries: seq<Query>, fold: Query -> string, i: nat)
    requires i < |queries|
  {
    queries[i].text != "" && forall j :: 0 <= j < i && queries[j].text != "" ==> fold(queries[j]) != fold(queries[i])
  }

  /** `places` are the positions of the queries that are kept, in order. */
  ghost predicate KeptAt(queries: seq<Query>, fold: Query -> string, kept: seq<Query>, places: seq<nat>) {
    && |places| == |kept|
    && (forall k :: 0 <= k < |places| ==> places[k] < |queries| && kept[k] == queries[places[k]])
    && (forall j, k :: 0 <= j < k < |places| ==> places[j] < places[k])
    && (forall i :: 0 <= i < |queries| ==> (FirstOfItsKey(queries, fold, i) <==> i in places))
  }

  /** Exactly the first query of each key is kept, and their order stays. */
  lemma {:induction false} DeduplicateKeepsFirsts(queries: seq<Query>, fold: Query -> string) returns (places: seq<nat>)
    ensures KeptAt(queries, fold, Deduplicate(queries, fold), places)
    decreases |queries|
  {
    hide KeptAt, Keys, FirstOfItsKey, Deduplicate;
    places := [];
    if queries != [] {
      var n := |queries| - 1;
      places := DeduplicateKeepsFirsts(queries[..n], fold);
      LastIsFirst(queries, fold, Deduplicate(queries[..n], fold), places);
      OneMoreKept(queries, fold, Deduplicate(queries[..n], fold), places);
      LastOfDeduplicate(queries, fold);
      if FirstOfItsKey(queries, fold, n) { places := places + [n]; }
    } else {
      NothingToKeep(fold);
    }
    assert KeptAt(queries, fold, Deduplicate(queries, fold), places);
  }

  lemma NothingToKeep(fold: Query -> string)
    ensures KeptAt([], fold, Deduplicate([], fold), [])
  {}

  lemma LastOfDeduplicate(queries: seq<Query>, fold: Query -> string)
    requires queries != []
    ensures var q, before := queries[|queries| - 1], Deduplicate(queries[..|queries| - 1], fold);
            Deduplicate(queries, fold) == if q.text == "" || fold(q) in Keys(before, fold) then before else before + [q]
  {
    hide Keys;
  }

  lemma OneMoreKept(queries: seq<Query>, fold: Query -> string, before: seq<Query>, had: seq<nat>)
    requires queries != [] && KeptAt(queries[..|queries| - 1], fold, before, had)
    ensures FirstOfItsKey(queries, fold, |queries| - 1) ==>
              KeptAt(queries, fold, before + [queries[|queries| - 1]], had + [|queries| - 1])
    ensures !FirstOfItsKey(queries, fold, |queries| - 1) ==> KeptAt(queries, fold, before, had)
  {
    var n := |queries| - 1;
    forall i | 0 <= i < n ensures FirstOfItsKey(queries, fold, i) <==> i in had {
      assert FirstOfItsKey(queries[..n], fold, i) <==> i in had;
    }
    hide FirstOfItsKey;
    assert n !in had;
    var longer := had + [n];
    assert forall i :: 0 <= i < n ==> (i in longer <==> i in had);
    assert longer[|had|] == n;
    if FirstOfItsKey(queries, fold, n) {
      assert KeptAt(queries, fold, before + [queries[n]], longer);
    } else {
      assert KeptAt(queries, fold, before, had);
    }
  }

  lemma LastIsFirst(queries: seq<Query>, fold: Query -> string, before: seq<Query>, had: seq<nat>)
    requires queries != [] && KeptAt(queries[..|queries| - 1], fold, before, had)
    ensures var last := queries[|queries| - 1];
            FirstOfItsKey(queries, fold, |queries| - 1) <==> last.text != "" && fold(last) !in Keys(before, fold)
  {
    var n := |queries| - 1;
    forall j | 0 <= j < n && queries[j].text != "" ensures fold(queries[j]) in Keys(before, fold) {
      EarlierKeyIsKept(queries[..n], fold, before, had, j);
    }
    if queries[n].text != "" && fold(queries[n]) in Keys(before, fold) {
      var p :| p in before && fold(p) == fold(queries[n]);
      var k :| 0 <= k < |before| && before[k] == p;
      assert FirstOfItsKey(queries[..n], fold, had[k]);
    }
  }

  lemma {:induction false} EarlierKeyIsKept(queries: seq<Query>, fold: Query -> string, kept: seq<Query>, places: seq<nat>,
                                            j: nat)
    requires KeptAt(queries, fold, kept, places) && j < |queries| && queries[j].text != ""
    ensures fold(queries[j]) in Keys(kept, fold)
  {
    if FirstOfItsKey(queries, fold, j) {
      var k :| 0 <= k < |places| && places[k] == j;
      assert kept[k] in kept;
    } else {
      var i :| 0 <= i < j && queries[i].text != "" && fold(queries[i]) == fold(queries[j]);
      EarlierKeyIsKept(queries, fold, kept, places, i);
    }
  }

  /** Nothing is invented and nothing kept twice. */
  lemma {:induction false} DeduplicateOnlyDrops(queries: seq<Query>, fold: Query -> string)
    ensures |Deduplicate(queries, fold)| <= |queries|
    ensures forall q :: q in Deduplicate(queries, fold) ==> q in queries && q.text != ""
    ensures |Keys(Deduplicate(queries, fold), fold)| == |Deduplicate(queries, fold)|
    decreases |queries|
  {
    if queries != [] {
      var q, before := queries[|queries| - 1], Deduplicate(queries[..|queries| - 1], fold);
      DeduplicateOnlyDrops(queries[..|queries| - 1], fold);
      assert Keys(before + [q], fold) == Keys(before, fold) + {fold(q)};
    }
  }

  /** Of every query asked for, one with its key is kept. */
  lemma {:induction false} DeduplicateKeepsEveryKey(queries: seq<Query>, fold: Query -> string, q: Query)
    requires q in queries && q.text != ""
    ensures Known(Deduplicate(queries, fold), q, fold)
    decreases |queries|
  {
    var last, rest := queries[|queries| - 1], queries[..|queries| - 1];
    assert queries == rest + [last];
    var before, after := Deduplicate(rest, fold), Deduplicate(queries, fold);
    if q in rest {
      DeduplicateKeepsEveryKey(rest, fold, q);
      var p :| p in before && fold(p) == fold(q);
      assert p in after;
    } else if fold(q) in Keys(before, fold) {
      var p :| p in before && fold(p) == fold(q);
      assert p in after;
    } else {
      assert after[|after| - 1] == q;
    }
  }

  function Flatten<T>(lists: seq<seq<T>>): seq<T> {
    if lists == [] then [] else Flatten(lists[..|lists| - 1]) + lists[|lists| - 1]
  }

  lemma {:induction false} FlattenLength<T>(lists: seq<seq<T>>)
    ensures |Flatten(lists)| == Total(Lengths(lists))
    decreases |lists|
  {
    if lists != [] {
      FlattenLength(lists[..|lists| - 1]);
      assert Lengths(lists)[..|lists| - 1] == Lengths(lists[..|lists| - 1]);
    }
  }

  /** The queries of a plan: the standalone question first, then every goal's queries, capped. */
  function PlanQueries(standalone: Query, granted: seq<seq<Query>>, fold: Query -> string): seq<Query> {
    var all := Deduplicate([standalone] + Flatten(granted), fold);
    if |all| > MAX_RETRIEVAL_QUERIES then all[..MAX_RETRIEVAL_QUERIES] else all
  }

  /** The cap of the plan never bites on an allocation made for it: every granted query is searched, or one
      with the same folded key is. */
  lemma CapDropsNoGrantedQuery(standalone: Query, granted: seq<seq<Query>>, fold: Query -> string)
    requires Total(Lengths(granted)) <= MAX_RETRIEVAL_QUERIES - 1
    ensures forall i, q :: 0 <= i < |granted| && q in granted[i] && q.text != "" ==>
              Known(PlanQueries(standalone, granted, fold), q, fold)
    ensures standalone.text != "" ==> Known(PlanQueries(standalone, granted, fold), standalone, fold)
  {
    var all := [standalone] + Flatten(granted);
    FlattenLength(granted);
    DeduplicateOnlyDrops(all, fold);
    forall i, q | 0 <= i < |granted| && q in granted[i] && q.text != ""
      ensures Known(PlanQueries(standalone, granted, fold), q, fold)
    {
      FlattenHolds(granted, i, q);
      DeduplicateKeepsEveryKey(all, fold, q);
    }
    if standalone.text != "" {
      assert all[0] == standalone;
      DeduplicateKeepsEveryKey(all, fold, standalone);
    }
  }

  /** A plan asks its standalone question first, then the goals' queries goal by goal, without repetitions and up to
      the cap. */
  lemma PlanStartsWithTheQuestion(standalone: Query, granted: seq<seq<Query>>, fold: Query -> string) returns (places: seq<nat>)
    ensures var all := [standalone] + Flatten(granted);
            var plan := PlanQueries(standalone, granted, fold);
            && |plan| == Min(MAX_RETRIEVAL_QUERIES, |places|) && KeptAt(all, fold, Deduplicate(all, fold), places)
            && (forall k :: 0 <= k < |plan| ==> places[k] < |all| && plan[k] == all[places[k]])
            && (standalone.text != "" ==> |plan| > 0 && plan[0] == standalone)
  {
    var all := [standalone] + Flatten(granted);
    places := DeduplicateKeepsFirsts(all, fold);
    if standalone.text != "" {
      assert FirstOfItsKey(all, fold, 0);
      assert forall j :: 0 < j < |places| ==> places[0] < places[j];
      var k :| 0 <= k < |places| && places[k] == 0;
    }
  }

  lemma {:induction false} FlattenHolds<T>(lists: seq<seq<T>>, i: nat, q: T)
    requires i < |lists| && q in lists[i]
    ensures q in Flatten(lists)
    decreases |lists|
  {
    if i < |lists| - 1 { FlattenHolds(lists[..|lists| - 1], i, q); }
  }
}
