/** The merging that keeps every query's first hits in front of the fused rows, for chunks and for pages. */
module Anchors {
  import opened Prelude
  import opened Fusion
  import opened QueryPlan
  import opened Text

  const MAX_PAGE_CANDIDATES: nat := 12
  const PAGE_ANCHORS_PER_QUERY: nat := 2
  const MAX_PAGE_QUERIES: nat := 4

  /** The rows in order, each key at its first occurrence. */
  function Firsts(rows: seq<Row>): seq<Row> {
    if rows == [] then []
    else
      var before, last := Firsts(rows[..|rows| - 1]), rows[|rows| - 1];
      if last.key in KeysOf(before) then before else before + [last]
  }

  function Heads(sets: seq<seq<Row>>, n: nat): seq<Row> {
    if sets == [] then []
    else
      var rows := sets[|sets| - 1];
      Heads(sets[..|sets| - 1], n) + rows[..Min(n, |rows|)]
  }

  function Capped(rows: seq<Row>, limit: nat): seq<Row> {
    if |rows| > limit then rows[..limit] else rows
  }

  lemma FirstsAppend(rows: seq<Row>, row: Row)
    ensures Firsts(rows + [row]) ==
              if row.key in KeysOf(Firsts(rows)) then Firsts(rows) else Firsts(rows) + [row]
  {
    assert (rows + [row])[..|rows|] == rows;
  }

  lemma {:induction false} FirstsKeepKeys(rows: seq<Row>)
    ensures KeysOf(Firsts(rows)) == KeysOf(rows)
    decreases |rows|
  {
    if rows != [] {
      var rest, last := rows[..|rows| - 1], rows[|rows| - 1];
      FirstsKeepKeys(rest);
      assert rest + [last] == rows;
      FirstsAppend(rest, last);
      KeysOfAppend(rest, last);
      KeysOfAppend(Firsts(rest), last);
      hide Firsts, KeysOf;
    }
  }

  lemma {:induction false} FirstsCountKeys(rows: seq<Row>)
    ensures |Firsts(rows)| == |KeysOf(Firsts(rows))|
    decreases |rows|
  {
    if rows != [] {
      var rest, last := rows[..|rows| - 1], rows[|rows| - 1];
      FirstsCountKeys(rest);
      assert rest + [last] == rows;
      FirstsAppend(rest, last);
      KeysOfAppend(Firsts(rest), last);
      hide Firsts, KeysOf;
    }
  }

  lemma {:induction false} FirstsAreDistinct(rows: seq<Row>)
    ensures DistinctKeys(Firsts(rows))
    decreases |rows|
  {
    if rows != [] {
      var rest := rows[..|rows| - 1];
      FirstsAreDistinct(rest);
      forall i | 0 <= i < |Firsts(rest)| ensures Firsts(rest)[i].key in KeysOf(Firsts(rest)) {
        assert Firsts(rest)[i] in Firsts(rest);
      }
      hide KeysOf;
    }
  }

  lemma KeysOfAppend(rows: seq<Row>, row: Row)
    ensures KeysOf(rows + [row]) == KeysOf(rows) + {row.key}
    ensures rows != [] ==> KeysOf(rows) == KeysOf(rows[..|rows| - 1]) + {rows[|rows| - 1].key}
  {
    if rows != [] { assert rows == rows[..|rows| - 1] + [rows[|rows| - 1]]; }
  }

  lemma {:induction false} FirstsExtend(a: seq<Row>, b: seq<Row>)
    ensures Firsts(a) <= Firsts(a + b)
    decreases |b|
  {
    if b == [] {
      assert a + b == a;
    } else {
      FirstsExtend(a, b[..|b| - 1]);
      assert (a + b)[..|a + b| - 1] == a + b[..|b| - 1];
    }
  }

  /** Once the limit is reached, later rows change nothing. */
  lemma FullStaysFull(seen: seq<Row>, all: seq<Row>, limit: nat)
    requires seen <= all && |Firsts(seen)| >= limit
    ensures Capped(Firsts(all), limit) == Capped(Firsts(seen), limit)
  {
    FirstsExtend(seen, all[|seen|..]);
    assert seen + all[|seen|..] == all;
    hide Firsts;
  }

  lemma HeadsStep(sets: seq<seq<Row>>, n: nat, s: nat)
    requires s < |sets|
    ensures Heads(sets[..s + 1], n) == Heads(sets[..s], n) + sets[s][..Min(n, |sets[s]|)]
  {
    assert sets[..s + 1][..s] == sets[..s];
  }

  lemma {:induction false} HeadsPrefix(sets: seq<seq<Row>>, n: nat, s: nat)
    requires s <= |sets|
    ensures Heads(sets[..s], n) <= Heads(sets, n)
    decreases |sets|
  {
    var last := |sets| - 1;
    if s <= last {
      HeadsPrefix(sets[..last], n, s);
      assert sets[..last][..s] == sets[..s];
    } else {
      assert sets[..s] == sets;
    }
  }

  /** One row is appended unless its key has been seen. */
  method AddUnseen(merged: seq<Row>, row: Row, ghost seen: seq<Row>) returns (longer: seq<Row>)
    requires merged == Firsts(seen)
    ensures longer == Firsts(seen + [row])
  {
    FirstsAppend(seen, row);
    hide Firsts;
    longer := if row.key in KeysOf(merged) then merged else merged + [row];
  }

  // ---- chunks: one anchor per query ----

  method MergeQueryAnchors(sets: seq<seq<Row>>, fused: seq<Row>, limit: nat) returns (merged: seq<Row>)
    ensures merged == Capped(Firsts(Heads(sets, 1) + fused), limit)
  {
    merged := [];
    ghost var seen: seq<Row> := [];
    for s := 0 to |sets|
      invariant seen == Heads(sets[..s], 1) && merged == Firsts(seen)
    {
      HeadsStep(sets, 1, s);
      hide Firsts, Heads;
      if sets[s] == [] { continue; }
      merged := AddUnseen(merged, sets[s][0], seen);
      seen := seen + [sets[s][0]];
    }
    assert sets[..|sets|] == sets;
    merged := Fill(merged, seen, fused, limit);
  }

  /** The fused rows fill up what the anchors leave. */
  method Fill(anchors: seq<Row>, ghost heads: seq<Row>, fused: seq<Row>, limit: nat) returns (merged: seq<Row>)
    requires anchors == Firsts(heads)
    ensures merged == Capped(Firsts(heads + fused), limit)
  {
    merged := anchors;
    ghost var seen := heads;
    var i := 0;
    while i < |fused| && |merged| != limit
      invariant 0 <= i <= |fused| && seen == heads + fused[..i] && merged == Firsts(seen)
    {
      hide Firsts;
      merged := AddUnseen(merged, fused[i], seen);
      seen := seen + [fused[i]];
      i := i + 1;
    }
    hide Firsts;
    if i < |fused| { FullStaysFull(seen, heads + fused, limit); } else { assert seen == heads + fused; }
    if |merged| > limit { merged := merged[..limit]; }
  }

  // ---- pages: two anchors per query, and an early return ----

  method MergePageAnchors(sets: seq<seq<Row>>, fused: seq<Row>, limit: nat) returns (merged: seq<Row>)
    requires limit > 0
    ensures merged == Capped(Firsts(Heads(sets, PAGE_ANCHORS_PER_QUERY) + fused), limit)
  {
    merged := [];
    for s := 0 to |sets|
      invariant merged == Firsts(Heads(sets[..s], PAGE_ANCHORS_PER_QUERY)) && |merged| < limit
    {
      hide Firsts, Heads, Capped;
      ghost var before := Heads(sets[..s], PAGE_ANCHORS_PER_QUERY);
      ghost var taken;
      HeadsStep(sets, PAGE_ANCHORS_PER_QUERY, s);
      HeadsPrefix(sets, PAGE_ANCHORS_PER_QUERY, s + 1);
      merged, taken := TakeAnchors(merged, before, sets[s][..Min(PAGE_ANCHORS_PER_QUERY, |sets[s]|)], limit);
      if |merged| == limit {
        FullIsCapped(before + taken, Heads(sets, PAGE_ANCHORS_PER_QUERY) + fused, limit);
        return;
      }
    }
    assert sets[..|sets|] == sets;
    merged := Fill(merged, Heads(sets, PAGE_ANCHORS_PER_QUERY), fused, limit);
  }

  lemma FullIsCapped(seen: seq<Row>, all: seq<Row>, limit: nat)
    requires seen <= all && |Firsts(seen)| == limit
    ensures Capped(Firsts(all), limit) == Firsts(seen)
  {
    FullStaysFull(seen, all, limit);
  }

  /** The anchors of one query, cut short when the limit is reached. */
  method TakeAnchors(anchors: seq<Row>, ghost seen: seq<Row>, rows: seq<Row>, limit: nat)
      returns (merged: seq<Row>, ghost taken: seq<Row>)
    requires anchors == Firsts(seen) && |anchors| < limit
    ensures taken <= rows && merged == Firsts(seen + taken)
    ensures |merged| == limit || (|merged| < limit && taken == rows)
  {
    merged, taken := anchors, [];
    assert seen + [] == seen;
    hide Firsts, KeysOf;
    for i := 0 to |rows|
      invariant taken == rows[..i] && merged == Firsts(seen + taken) && |merged| < limit
    {
      TakeOne(seen, taken, rows[i]);
      taken := taken + [rows[i]];
      if rows[i].key in KeysOf(merged) { continue; }
      merged := merged + [rows[i]];
      if |merged| == limit { break; }
    }
    assert merged == Firsts(seen + taken);
  }

  lemma TakeOne(seen: seq<Row>, taken: seq<Row>, row: Row)
    ensures Firsts(seen + (taken + [row])) ==
              if row.key in KeysOf(Firsts(seen + taken)) then Firsts(seen + taken) else Firsts(seen + taken) + [row]
  {
    assert seen + (taken + [row]) == (seen + taken) + [row];
    FirstsAppend(seen + taken, row);
    hide Firsts, KeysOf;
  }

  // ---- what survives ----

  lemma HeadKeys(before: seq<Row>, rows: seq<Row>, count: nat)
    requires count <= |rows|
    ensures KeysOf(before + rows[..count]) <= KeysOf(before) + KeysOf(rows)
  {}

  lemma {:induction false} HeadsComeFromTheSets(sets: seq<seq<Row>>, n: nat)
    ensures KeysOf(Heads(sets, n)) <= AllKeys(sets)
    ensures |Heads(sets, n)| <= n * |sets|
    decreases |sets|
  {
    if sets != [] {
      HeadsComeFromTheSets(sets[..|sets| - 1], n);
      var before, rows := Heads(sets[..|sets| - 1], n), sets[|sets| - 1];
      assert Heads(sets, n) == before + rows[..Min(n, |rows|)];
      assert AllKeys(sets) == AllKeys(sets[..|sets| - 1]) + KeysOf(rows);
      hide Heads, AllKeys;
      HeadKeys(before, rows, Min(n, |rows|));
      assert n * |sets| == n * (|sets| - 1) + n;
    }
  }

  lemma {:induction false} HeadIsInHeads(sets: seq<seq<Row>>, n: nat, s: nat, i: nat)
    requires s < |sets| && i < n && i < |sets[s]|
    ensures sets[s][i] in Heads(sets, n)
    decreases |sets|
  {
    var last := |sets| - 1;
    if s < last {
      HeadIsInHeads(sets[..last], n, s, i);
    } else {
      assert sets[last][..Min(n, |sets[last]|)][i] == sets[s][i];
    }
  }

  lemma {:induction false} DistinctCount(rows: seq<Row>)
    requires DistinctKeys(rows)
    ensures |KeysOf(rows)| == |rows|
    decreases |rows|
  {
    if rows != [] {
      DistinctCount(rows[..|rows| - 1]);
      KeysOfAppend(rows, rows[|rows| - 1]);
    }
  }

  lemma TopIsDistinct(rows: seq<Row>, sets: seq<seq<Row>>, k: nat)
    requires Top(rows, sets, k)
    ensures DistinctKeys(rows) && KeysOf(rows) <= AllKeys(sets) && |KeysOf(rows)| == |rows|
    ensures k >= |AllKeys(sets)| ==> KeysOf(rows) == AllKeys(sets)
  {
    forall i, j | 0 <= i < j < |rows| ensures rows[i].key != rows[j].key {
      assert Better(sets, rows[i].key, rows[j].key);
    }
    DistinctCount(rows);
    if k >= |AllKeys(sets)| { SubsetOfSameSize(KeysOf(rows), AllKeys(sets)); }
  }

  lemma SubsetOfSameSize<T>(a: set<T>, b: set<T>)
    requires a <= b && |a| == |b|
    ensures a == b
  {
    assert |b - a| == |b| - |a|;
  }

  /** The rows behind the heads of every list, filled up by the fusion of the lists. */
  function Anchored(sets: seq<seq<Row>>, n: nat, fused: seq<Row>, limit: nat): seq<Row> {
    Capped(Firsts(Heads(sets, n) + fused), limit)
  }

  lemma KeysOfSum(a: seq<Row>, b: seq<Row>)
    ensures KeysOf(a + b) == KeysOf(a) + KeysOf(b)
  {}

  /** After anchoring there are exactly min(limit, distinct keys) rows, none twice, none invented. */
  lemma AnchoringFillsTheLimit(sets: seq<seq<Row>>, n: nat, fused: seq<Row>, limit: nat)
    requires Top(fused, sets, limit)
    ensures |Anchored(sets, n, fused, limit)| == Min(limit, |AllKeys(sets)|)
    ensures DistinctKeys(Anchored(sets, n, fused, limit))
    ensures KeysOf(Anchored(sets, n, fused, limit)) <= AllKeys(sets)
  {
    var heads := Heads(sets, n);
    var all := heads + fused;
    HeadsComeFromTheSets(sets, n);
    TopIsDistinct(fused, sets, limit);
    KeysOfSum(heads, fused);
    FirstsKeepKeys(all);
    FirstsCountKeys(all);
    FirstsAreDistinct(all);
    hide Firsts, Heads, AllKeys, Top;
    var firsts := Firsts(all);
    assert KeysOf(fused) <= KeysOf(firsts) <= AllKeys(sets);
    SubsetCount(KeysOf(fused), KeysOf(firsts));
    SubsetCount(KeysOf(firsts), AllKeys(sets));
    assert |fused| == Min(limit, |AllKeys(sets)|) by { TopCount(fused, sets, limit); }
  }

  lemma TopCount(fused: seq<Row>, sets: seq<seq<Row>>, limit: nat)
    requires Top(fused, sets, limit)
    ensures |fused| == Min(limit, |AllKeys(sets)|)
  {}

  lemma SubsetCount<T>(a: set<T>, b: set<T>)
    requires a <= b
    ensures |a| <= |b|
  {
    assert |b - a| == |b| - |a|;
  }

  // ---- the order of the merged rows ----

  ghost predicate FirstOfItsKeyAt(rows: seq<Row>, i: nat)
    requires i < |rows|
  {
    forall j :: 0 <= j < i ==> rows[j].key != rows[i].key
  }

  /** `kept` are the rows at these positions, in order; they are the first occurrences of the keys. */
  ghost predicate FirstsAt(rows: seq<Row>, kept: seq<Row>, places: seq<nat>) {
    && |places| == |kept|
    && (forall k :: 0 <= k < |places| ==> places[k] < |rows| && kept[k] == rows[places[k]])
    && (forall j, k :: 0 <= j < k < |places| ==> places[j] < places[k])
    && (forall i :: 0 <= i < |rows| ==> (FirstOfItsKeyAt(rows, i) <==> i in places))
  }

  lemma {:induction false} FirstsInOrder(rows: seq<Row>) returns (places: seq<nat>)
    ensures FirstsAt(rows, Firsts(rows), places)
    decreases |rows|
  {
    places := [];
    if rows != [] {
      var n := |rows| - 1;
      var had := FirstsInOrder(rows[..n]);
      FirstsKeepKeys(rows[..n]);
      LastIsFirstOccurrence(rows);
      hide KeysOf, Firsts;
      places := if rows[n].key in KeysOf(rows[..n]) then had else had + [n];
      assert Firsts(rows) == if n in places then Firsts(rows[..n]) + [rows[n]] else Firsts(rows[..n]) by { LastOfFirsts(rows); }
      OneMoreFirst(rows, Firsts(rows[..n]), had);
    }
  }

  lemma LastOfFirsts(rows: seq<Row>)
    requires rows != []
    ensures var before, last := Firsts(rows[..|rows| - 1]), rows[|rows| - 1];
            Firsts(rows) == if last.key in KeysOf(before) then before else before + [last]
  {}

  lemma OneMoreFirst(rows: seq<Row>, before: seq<Row>, had: seq<nat>)
    requires rows != [] && FirstsAt(rows[..|rows| - 1], before, had)
    ensures FirstOfItsKeyAt(rows, |rows| - 1) ==> FirstsAt(rows, before + [rows[|rows| - 1]], had + [|rows| - 1])
    ensures !FirstOfItsKeyAt(rows, |rows| - 1) ==> FirstsAt(rows, before, had)
  {
    var n := |rows| - 1;
    forall i | 0 <= i < n ensures FirstOfItsKeyAt(rows, i) <==> i in had {
      assert FirstOfItsKeyAt(rows[..n], i) <==> i in had;
    }
    hide FirstOfItsKeyAt;
    assert n !in had;
    if FirstOfItsKeyAt(rows, n) {
      var places := had + [n];
      assert forall i :: 0 <= i < n ==> (i in places <==> i in had);
      assert places[|had|] == n;
      assert FirstsAt(rows, before + [rows[n]], places);
    } else {
      assert FirstsAt(rows, before, had);
    }
  }

  lemma LastIsFirstOccurrence(rows: seq<Row>)
    requires rows != []
    ensures FirstOfItsKeyAt(rows, |rows| - 1) <==> rows[|rows| - 1].key !in KeysOf(rows[..|rows| - 1])
  {
    var n := |rows| - 1;
    forall j | 0 <= j < n ensures rows[j].key in KeysOf(rows[..n]) { assert rows[..n][j] in rows[..n]; }
  }

  /** Where the heads come from: list after list, in each its first `n` rows in order. */
  ghost predicate HeadsAt(sets: seq<seq<Row>>, n: nat, heads: seq<Row>, from: seq<(nat, nat)>) {
    && |from| == |heads|
    && (forall k :: 0 <= k < |from| ==> from[k].0 < |sets| && from[k].1 < n && from[k].1 < |sets[from[k].0]|
                                        && heads[k] == sets[from[k].0][from[k].1])
    && (forall j, k :: 0 <= j < k < |from| ==> from[j].0 < from[k].0 || (from[j].0 == from[k].0 && from[j].1 < from[k].1))
    && (forall s: nat, i: nat :: s < |sets| && i < n && i < |sets[s]| ==> (s, i) in from)
  }

  lemma {:induction false} HeadsInOrder(sets: seq<seq<Row>>, n: nat) returns (from: seq<(nat, nat)>)
    ensures HeadsAt(sets, n, Heads(sets, n), from)
    decreases |sets|
  {
    from := [];
    if sets != [] {
      hide HeadsAt;
      var last := |sets| - 1;
      var had := HeadsInOrder(sets[..last], n);
      from := OneMoreList(sets, n, Heads(sets[..last], n), had);
      HeadsOfLast(sets, n);
    } else {
      assert HeadsAt(sets, n, [], []);
    }
  }

  lemma OneMoreList(sets: seq<seq<Row>>, n: nat, before: seq<Row>, had: seq<(nat, nat)>) returns (from: seq<(nat, nat)>)
    requires sets != [] && HeadsAt(sets[..|sets| - 1], n, before, had)
    ensures HeadsAt(sets, n, before + sets[|sets| - 1][..Min(n, |sets[|sets| - 1]|)], from)
  {
    var last := |sets| - 1;
    var count: nat := Min(n, |sets[last]|);
    var added: seq<(nat, nat)> := seq(count, i requires 0 <= i < count => (last, i));
    from := had + added;
    forall s: nat, i: nat | s < |sets| && i < n && i < |sets[s]| ensures (s, i) in from {
      if s < last {
        assert sets[..last][s] == sets[s] && (s, i) in had;
      } else {
        assert added[i] == (s, i);
      }
    }
    var heads := before + sets[last][..count];
    forall k | 0 <= k < |from|
      ensures from[k].0 < |sets| && from[k].1 < n && from[k].1 < |sets[from[k].0]| && heads[k] == sets[from[k].0][from[k].1]
    {
      if k < |had| { assert from[k] == had[k] && sets[..last][had[k].0] == sets[had[k].0]; }
    }
  }

  lemma HeadsOfLast(sets: seq<seq<Row>>, n: nat)
    requires sets != []
    ensures Heads(sets, n) == Heads(sets[..|sets| - 1], n) + sets[|sets| - 1][..Min(n, |sets[|sets| - 1]|)]
  {}

  /** The merged rows are, in order, the first occurrences among the lists' first hits and then the fused rows, up to
      the limit. */
  lemma MergedRowsGoInOrder(sets: seq<seq<Row>>, n: nat, fused: seq<Row>, limit: nat)
      returns (heads: seq<Row>, from: seq<(nat, nat)>, firsts: seq<Row>, places: seq<nat>)
    ensures HeadsAt(sets, n, heads, from) && FirstsAt(heads + fused, firsts, places)
    ensures |Anchored(sets, n, fused, limit)| == Min(limit, |firsts|)
    ensures forall k :: 0 <= k < Min(limit, |firsts|) ==> Anchored(sets, n, fused, limit)[k] == firsts[k]
  {
    heads := Heads(sets, n);
    firsts := Firsts(heads + fused);
    from := HeadsInOrder(sets, n);
    places := FirstsInOrder(heads + fused);
  }

  /** If the heads fit the limit they all survive, in front and in order: no query loses its first hits. */
  lemma HeadsSurvive(sets: seq<seq<Row>>, n: nat, fused: seq<Row>, limit: nat, s: nat, i: nat)
    requires |Firsts(Heads(sets, n))| <= limit
    requires s < |sets| && i < n && i < |sets[s]|
    ensures Firsts(Heads(sets, n)) <= Anchored(sets, n, fused, limit)
    ensures sets[s][i].key in KeysOf(Anchored(sets, n, fused, limit))
  {
    var heads := Heads(sets, n);
    HeadIsInHeads(sets, n, s, i);
    FirstsKeepKeys(heads);
    FirstsExtend(heads, fused);
    assert sets[s][i].key in KeysOf(Firsts(heads));
    hide Firsts, Heads;
    var r :| r in Firsts(heads) && r.key == sets[s][i].key;
    assert r in Anchored(sets, n, fused, limit);
  }

  /** Every list's first `n` hits are among the rows. */
  ghost predicate HeadsKept(sets: seq<seq<Row>>, n: nat, rows: seq<Row>) {
    forall s, i :: 0 <= s < |sets| && 0 <= i < n && i < |sets[s]| ==> sets[s][i].key in KeysOf(rows)
  }

  lemma {:induction false} HeadOfAList(sets: seq<seq<Row>>, n: nat, r: Row) returns (s: nat, i: nat)
    requires r in Heads(sets, n)
    ensures s < |sets| && i < n && i < |sets[s]| && sets[s][i] == r
    decreases |sets|
  {
    var last := |sets| - 1;
    if r in Heads(sets[..last], n) {
      s, i := HeadOfAList(sets[..last], n, r);
    } else {
      s := last;
      assert r in sets[last][..Min(n, |sets[last]|)];
      i :| i < Min(n, |sets[last]|) && sets[last][..Min(n, |sets[last]|)][i] == r;
    }
  }

  lemma {:induction false} FirstsAreRows(rows: seq<Row>)
    ensures forall r :: r in Firsts(rows) ==> r in rows
    decreases |rows|
  {
    if rows != [] { FirstsAreRows(rows[..|rows| - 1]); }
  }

  /** The first hits of all lists survive anchoring if and only if there are no more distinct ones than the limit. */
  lemma HeadsSurviveExactly(sets: seq<seq<Row>>, n: nat, fused: seq<Row>, limit: nat)
    ensures HeadsKept(sets, n, Anchored(sets, n, fused, limit)) <==> |Firsts(Heads(sets, n))| <= limit
  {
    if |Firsts(Heads(sets, n))| <= limit {
      forall s: nat, i: nat | s < |sets| && i < n && i < |sets[s]|
        ensures sets[s][i].key in KeysOf(Anchored(sets, n, fused, limit))
      {
        HeadsSurvive(sets, n, fused, limit, s, i);
      }
    } else {
      var s, i := OneHeadIsCut(sets, n, fused, limit);
    }
  }

  lemma OneHeadIsCut(sets: seq<seq<Row>>, n: nat, fused: seq<Row>, limit: nat) returns (s: nat, i: nat)
    requires |Firsts(Heads(sets, n))| > limit
    ensures s < |sets| && i < n && i < |sets[s]| && sets[s][i].key !in KeysOf(Anchored(sets, n, fused, limit))
  {
    var heads := Heads(sets, n);
    var cut := Firsts(heads)[limit];
    FirstsAreRows(heads);
    FirstsExtend(heads, fused);
    FirstsAreDistinct(heads);
    hide Firsts, Heads;
    assert Anchored(sets, n, fused, limit) == Firsts(heads)[..limit];
    s, i := HeadOfAList(sets, n, cut);
  }

  lemma {:induction false} OneHitEach(sets: seq<seq<Row>>)
    ensures |Firsts(Heads(sets, 1))| <= |sets|
  {
    HeadsComeFromTheSets(sets, 1);
    FirstsNotLonger(Heads(sets, 1));
  }

  /** Thirteen queries, each with a hit of its own. */
  function ThirteenQueries(): seq<seq<Row>> {
    seq(13, s => [Row(ChunkKey(s), 1.0, "Guide")])
  }

  function Hits(n: nat): seq<Row> {
    seq(n, s => Row(ChunkKey(s), 1.0, "Guide"))
  }

  lemma {:induction false} AllDifferentHits(n: nat)
    requires n <= 13
    ensures Heads(ThirteenQueries()[..n], 1) == Hits(n) && Firsts(Hits(n)) == Hits(n)
  {
    hide Firsts, KeysOf, Heads;
    if n > 0 {
      AllDifferentHits(n - 1);
      NextHit(n);
      hide Hits, ThirteenQueries;
      FirstsAppend(Hits(n - 1), Row(ChunkKey(n - 1), 1.0, "Guide"));
    } else {
      NoHits();
    }
  }

  lemma NoHits()
    ensures Heads(ThirteenQueries()[..0], 1) == Hits(0) && Firsts(Hits(0)) == Hits(0)
  {
    assert ThirteenQueries()[..0] == [] && Hits(0) == [];
  }

  lemma NextHit(n: nat)
    requires 0 < n <= 13
    ensures var hit := Row(ChunkKey(n - 1), 1.0, "Guide");
            && Hits(n) == Hits(n - 1) + [hit] && hit.key !in KeysOf(Hits(n - 1))
            && Heads(ThirteenQueries()[..n], 1) == Heads(ThirteenQueries()[..n - 1], 1) + [hit]
  {
    hide Heads;
    HeadsStep(ThirteenQueries(), 1, n - 1);
    assert ThirteenQueries()[n - 1][..1] == [Row(ChunkKey(n - 1), 1.0, "Guide")];
  }

  /** Four retry goals of three queries each and the question itself, four results wanted: of the thirteen first
      hits one is lost among the twelve candidates. */
  lemma ThirteenHitsLoseOne(fused: seq<Row>) returns (s: nat)
    ensures s < 13 && ThirteenQueries()[s][0].key !in KeysOf(Anchored(ThirteenQueries(), 1, fused, 12))
  {
    AllDifferentHits(13);
    assert ThirteenQueries()[..13] == ThirteenQueries();
    var i;
    s, i := OneHeadIsCut(ThirteenQueries(), 1, fused, 12);
  }

  // ---- the page fallback as a whole ----

  function Stripped(queries: seq<Query>): seq<Query> {
    seq(|queries|, i requires 0 <= i < |queries| => Query(Strip(queries[i].text)))
  }

  /** The planned queries first and the question last, without duplicates, at most four. */
  method NormalizeQueries(question: Query, queries: seq<Query>, fold: Query -> string) returns (normalized: seq<Query>)
    ensures |normalized| <= MAX_PAGE_QUERIES
    ensures normalized <= Deduplicate(Stripped(queries + [question]), fold)
    ensures |normalized| < MAX_PAGE_QUERIES ==> normalized == Deduplicate(Stripped(queries + [question]), fold)
  {
    normalized := DeduplicateQueries(Stripped(queries + [question]), fold);
    if |normalized| > MAX_PAGE_QUERIES { normalized := normalized[..MAX_PAGE_QUERIES]; }
  }

  /** The keyword and substring answers for each normalized query are fused, then the queries with each other;
      whatever the fusion does, the two best pages of every query are among the candidates. */
  method PageCandidates(keyword: seq<seq<Row>>, substring: seq<seq<Row>>)
      returns (pages: seq<Row>, ghost perQuery: seq<seq<Row>>)
    requires |keyword| == |substring| <= MAX_PAGE_QUERIES
    ensures |perQuery| == |keyword|
    ensures forall q :: 0 <= q < |perQuery| ==> Top(perQuery[q], [keyword[q], substring[q]], MAX_PAGE_CANDIDATES)
    ensures |pages| == Min(MAX_PAGE_CANDIDATES, |AllKeys(perQuery)|) && DistinctKeys(pages)
    ensures exists fused :: Top(fused, perQuery, MAX_PAGE_CANDIDATES)
                            && pages == Anchored(perQuery, PAGE_ANCHORS_PER_QUERY, fused, MAX_PAGE_CANDIDATES)
    ensures forall q, i :: 0 <= q < |perQuery| && 0 <= i < PAGE_ANCHORS_PER_QUERY && i < |perQuery[q]| ==>
              perQuery[q][i].key in KeysOf(pages)
  {
    var results := [];
    for q := 0 to |keyword|
      invariant |results| == q
      invariant forall k :: 0 <= k < q ==> Top(results[k], [keyword[k], substring[k]], MAX_PAGE_CANDIDATES)
    {
      hide Top;
      var fused := FuseResults([keyword[q], substring[q]], MAX_PAGE_CANDIDATES);
      results := results + [fused];
    }
    hide Top, Firsts, Heads, KeysOf, AllKeys;
    perQuery := results;
    var fused := FuseResults(results, MAX_PAGE_CANDIDATES);
    pages := MergePageAnchors(results, fused, MAX_PAGE_CANDIDATES);
    AnchoringFillsTheLimit(results, PAGE_ANCHORS_PER_QUERY, fused, MAX_PAGE_CANDIDATES);
    TwoHeadsFit(results);
    forall q: nat, i: nat | q < |results| && i < PAGE_ANCHORS_PER_QUERY && i < |results[q]|
      ensures results[q][i].key in KeysOf(pages)
    {
      HeadsSurvive(results, PAGE_ANCHORS_PER_QUERY, fused, MAX_PAGE_CANDIDATES, q, i);
    }
  }

  lemma TwoHeadsFit(sets: seq<seq<Row>>)
    requires |sets| <= MAX_PAGE_QUERIES
    ensures |Firsts(Heads(sets, PAGE_ANCHORS_PER_QUERY))| <= MAX_PAGE_CANDIDATES
  {
    HeadsComeFromTheSets(sets, PAGE_ANCHORS_PER_QUERY);
    FirstsNotLonger(Heads(sets, PAGE_ANCHORS_PER_QUERY));
  }

  lemma {:induction false} FirstsNotLonger(rows: seq<Row>)
    ensures |Firsts(rows)| <= |rows|
    decreases |rows|
  {
    if rows != [] { FirstsNotLonger(rows[..|rows| - 1]); }
  }
}
