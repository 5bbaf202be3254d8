/**
 Reciprocal rank fusion of several result lists, and the merging that keeps the first hits of every query
 whatever the fusion makes of them. Chunks and pages go through the same code under different keys.
 */
module Fusion {
  import opened Prelude

  datatype Key = ChunkKey(id: int) | PageKey(document: int, page: int)

  datatype Row = Row(key: Key, score: real, title: string)

  /** The order of the keys themselves: ids, or (document, page) pairs. */
  predicate Before(a: Key, b: Key) {
    match (a, b)
    case (ChunkKey(i), ChunkKey(j)) => i < j
    case (ChunkKey(_), PageKey(_, _)) => true
    case (PageKey(_, _), ChunkKey(_)) => false
    case (PageKey(d, p), PageKey(e, q)) => d < e || (d == e && p < q)
  }

  // ---- scores ----

  function Weight(rank: nat): real {
    1.0 / (60 + rank) as real
  }

  /** What one result list adds to the score of a key; ranks count from 1. */
  function ScoreIn(rows: seq<Row>, key: Key): real {
    if rows == [] then 0.0
    else ScoreIn(rows[..|rows| - 1], key) + if rows[|rows| - 1].key == key then Weight(|rows|) else 0.0
  }

  function Score(sets: seq<seq<Row>>, key: Key): real {
    if sets == [] then 0.0 else Score(sets[..|sets| - 1], key) + ScoreIn(sets[|sets| - 1], key)
  }

  function KeysOf(rows: seq<Row>): set<Key> {
    set r | r in rows :: r.key
  }

  function AllKeys(sets: seq<seq<Row>>): set<Key> {
    if sets == [] then {} else AllKeys(sets[..|sets| - 1]) + KeysOf(sets[|sets| - 1])
  }

  lemma Reciprocal(x: real, y: real)
    requires 0.0 < x < y
    ensures 1.0 / x > 1.0 / y > 0.0
  {
    var p, q := 1.0 / x, 1.0 / y;
    assert p * x == 1.0 && q * y == 1.0;
  }

  lemma WeightFalls(a: nat, b: nat)
    requires a < b
    ensures Weight(a) > Weight(b) > 0.0
  {
    Reciprocal((60 + a) as real, (60 + b) as real);
  }

  // ---- the ranking ----

  ghost predicate Precedes(scores: map<Key, real>, a: Key, b: Key)
    requires a in scores && b in scores
  {
    scores[a] > scores[b] || (scores[a] == scores[b] && Before(a, b))
  }

  ghost predicate Ranked(ranked: seq<Key>, scores: map<Key, real>) {
    && (forall k :: 0 <= k < |ranked| ==> ranked[k] in scores)
    && (forall i, j :: 0 <= i < j < |ranked| ==> Precedes(scores, ranked[i], ranked[j]))
  }

  /** sorted() by falling score, then key. */
  method SortKeys(scores: map<Key, real>) returns (ranked: seq<Key>)
    ensures Ranked(ranked, scores)
    ensures forall key :: key in scores <==> key in ranked
    ensures |ranked| == |scores|
  {
    ranked := [];
    var left := scores.Keys;
    while left != {}
      invariant left <= scores.Keys && |ranked| + |left| == |scores.Keys|
      invariant Ranked(ranked, scores)
      invariant forall key :: key in scores <==> key in ranked || key in left
      invariant forall key :: key in ranked ==> key !in left
      decreases |left|
    {
      var key :| key in left;
      left := left - {key};
      ranked := Insert(ranked, key, scores);
    }
  }

  method Insert(ranked: seq<Key>, key: Key, scores: map<Key, real>) returns (longer: seq<Key>)
    requires Ranked(ranked, scores) && key in scores && key !in ranked
    ensures Ranked(longer, scores) && |longer| == |ranked| + 1
    ensures forall k :: k in longer <==> k == key || k in ranked
  {
    var at := 0;
    while at < |ranked| && (scores[ranked[at]] > scores[key]
                            || (scores[ranked[at]] == scores[key] && Before(ranked[at], key)))
      invariant 0 <= at <= |ranked|
      invariant forall i :: 0 <= i < at ==> Precedes(scores, ranked[i], key)
    {
      at := at + 1;
    }
    longer := ranked[..at] + [key] + ranked[at..];
    if at < |ranked| { assert ranked[at] != key; }
    forall i, j | 0 <= i < j < |longer| ensures Precedes(scores, longer[i], longer[j]) {}
    forall k ensures k in longer <==> k == key || k in ranked {
      assert ranked == ranked[..at] + ranked[at..];
    }
  }

  // ---- titles: the last row with a key names it ----

  function TitleIn(rows: seq<Row>, key: Key): Option<string> {
    if rows == [] then None
    else if rows[|rows| - 1].key == key then Some(rows[|rows| - 1].title)
    else TitleIn(rows[..|rows| - 1], key)
  }

  function TitleOf(sets: seq<seq<Row>>, key: Key): Option<string> {
    if sets == [] then None
    else
      var last := TitleIn(sets[|sets| - 1], key);
      if last.Some? then last else TitleOf(sets[..|sets| - 1], key)
  }

  ghost predicate LastTitles(rows: seq<Row>, sets: seq<seq<Row>>) {
    forall i :: 0 <= i < |rows| ==> TitleOf(sets, rows[i].key) == Some(rows[i].title)
  }

  /** The titles after some whole lists and part of one more. */
  ghost predicate Titled(titles: map<Key, string>, sets: seq<seq<Row>>, rows: seq<Row>) {
    forall key :: key in titles ==>
      (if TitleIn(rows, key).Some? then TitleIn(rows, key) else TitleOf(sets, key)) == Some(titles[key])
  }

  lemma TitleRow(titles: map<Key, string>, sets: seq<seq<Row>>, rows: seq<Row>, row: Row)
    requires Titled(titles, sets, rows)
    ensures Titled(titles[row.key := row.title], sets, rows + [row])
  {
    assert (rows + [row])[..|rows|] == rows;
  }

  lemma TitledList(titles: map<Key, string>, sets: seq<seq<Row>>, rows: seq<Row>)
    requires Titled(titles, sets, rows)
    ensures Titled(titles, sets + [rows], [])
  {
    assert (sets + [rows])[..|sets|] == sets;
  }

  /** The accumulated scores are those of the definition, on exactly the keys that occur. */
  ghost predicate Accumulated(scores: map<Key, real>, titles: map<Key, string>, sets: seq<seq<Row>>) {
    && scores.Keys == titles.Keys == AllKeys(sets)
    && (forall key :: key in scores ==> scores[key] == Score(sets, key))
  }

  lemma {:induction false} AbsentScoresNothing(rows: seq<Row>, key: Key)
    requires key !in KeysOf(rows)
    ensures ScoreIn(rows, key) == 0.0
    decreases |rows|
  {
    if rows != [] {
      assert rows[|rows| - 1] in rows;
      AbsentScoresNothing(rows[..|rows| - 1], key);
    }
  }

  lemma {:induction false} AbsentEverywhere(sets: seq<seq<Row>>, key: Key)
    requires key !in AllKeys(sets)
    ensures Score(sets, key) == 0.0
    decreases |sets|
  {
    if sets != [] {
      AbsentEverywhere(sets[..|sets| - 1], key);
      AbsentScoresNothing(sets[|sets| - 1], key);
    }
  }

  /**
   The fusion loops and the sort. `k` rows at most are returned: the best by score, ties broken by key.
   */
  method FuseResults(sets: seq<seq<Row>>, k: nat) returns (rows: seq<Row>)
    ensures Top(rows, sets, k) && LastTitles(rows, sets)
  {
    var scores, titles := Accumulate(sets);
    var ranked := SortKeys(scores);
    var count := Min(k, |ranked|);
    rows := seq(count, i requires 0 <= i < count => Row(ranked[i], scores[ranked[i]], titles[ranked[i]]));
    RankedIsSorted(ranked, scores, titles, sets);
    FusedRows(ranked, scores, titles, sets, rows, k);
    hide Ranked, Sorted, Accumulated, Titled;
  }

  lemma FusedRows(ranked: seq<Key>, scores: map<Key, real>, titles: map<Key, string>, sets: seq<seq<Row>>,
                  rows: seq<Row>, k: nat)
    requires Accumulated(scores, titles, sets) && Titled(titles, sets, []) && Sorted(ranked, sets)
    requires |rows| == Min(k, |ranked|)
    requires forall i :: 0 <= i < |rows| ==> ranked[i] in scores && ranked[i] in titles
    requires forall i :: 0 <= i < |rows| ==> rows[i] == Row(ranked[i], scores[ranked[i]], titles[ranked[i]])
    ensures Top(rows, sets, k) && LastTitles(rows, sets)
  {
    hide Score, AllKeys, TitleOf, Sorted;
    SortedIsTop(ranked, sets, rows, k);
  }

  /** The sorted keys are exactly those of the lists, each before the ones it scores better than. */
  ghost predicate Sorted(ranked: seq<Key>, sets: seq<seq<Row>>) {
    && |ranked| == |AllKeys(sets)| && (forall key :: key in AllKeys(sets) <==> key in ranked)
    && (forall i, j :: 0 <= i < j < |ranked| ==> Better(sets, ranked[i], ranked[j]))
  }

  lemma RankedIsSorted(ranked: seq<Key>, scores: map<Key, real>, titles: map<Key, string>, sets: seq<seq<Row>>)
    requires Accumulated(scores, titles, sets) && Ranked(ranked, scores) && |ranked| == |scores|
    requires forall key :: key in scores <==> key in ranked
    ensures Sorted(ranked, sets)
  {
    hide Score, AllKeys, Before;
    assert |AllKeys(sets)| == |scores.Keys| == |scores|;
    forall i, j | 0 <= i < j < |ranked| ensures Better(sets, ranked[i], ranked[j]) {
      assert Precedes(scores, ranked[i], ranked[j]);
    }
    hide Better;
  }

  lemma SortedIsTop(ranked: seq<Key>, sets: seq<seq<Row>>, rows: seq<Row>, k: nat)
    requires Sorted(ranked, sets) && |rows| == Min(k, |ranked|)
    requires forall i :: 0 <= i < |rows| ==> rows[i].key == ranked[i] && rows[i].score == Score(sets, ranked[i])
    ensures Top(rows, sets, k)
  {
    hide Score, AllKeys, Better;
    forall key, i | key in AllKeys(sets) && (forall n :: 0 <= n < |rows| ==> rows[n].key != key) && 0 <= i < |rows|
      ensures Better(sets, rows[i].key, key)
    {
      forall n | 0 <= n < |rows| ensures ranked[n] != key { assert rows[n].key == ranked[n]; }
      var m :| 0 <= m < |ranked| && ranked[m] == key;
    }
  }

  /** a is ranked before b by the summed score. */
  ghost predicate Better(sets: seq<seq<Row>>, a: Key, b: Key) {
    Score(sets, a) > Score(sets, b) || (Score(sets, a) == Score(sets, b) && Before(a, b))
  }

  /** The rows are exactly the best min(k, distinct keys), in order, each with its summed score. */
  ghost predicate Top(rows: seq<Row>, sets: seq<seq<Row>>, k: nat) {
    && |rows| == Min(k, |AllKeys(sets)|)
    && (forall i :: 0 <= i < |rows| ==> rows[i].key in AllKeys(sets) && rows[i].score == Score(sets, rows[i].key))
    && (forall i, j :: 0 <= i < j < |rows| ==> Better(sets, rows[i].key, rows[j].key))
    && (forall key :: key in AllKeys(sets) && (forall i :: 0 <= i < |rows| ==> rows[i].key != key) ==>
          forall i :: 0 <= i < |rows| ==> Better(sets, rows[i].key, key))
  }

  method Accumulate(sets: seq<seq<Row>>) returns (scores: map<Key, real>, titles: map<Key, string>)
    ensures Accumulated(scores, titles, sets) && Titled(titles, sets, [])
  {
    scores, titles := map[], map[];
    for s := 0 to |sets|
      invariant Accumulated(scores, titles, sets[..s]) && Titled(titles, sets[..s], [])
    {
      hide Accumulated, Titled;
      scores, titles := AddList(sets[..s], scores, titles, sets[s]);
      assert sets[..s + 1] == sets[..s] + [sets[s]];
    }
    assert sets[..|sets|] == sets;
  }

  /** Part of a list has been added to the scores. */
  ghost predicate PartlyAdded(scores: map<Key, real>, sets: seq<seq<Row>>, rows: seq<Row>) {
    && scores.Keys == AllKeys(sets) + KeysOf(rows)
    && (forall key :: key in scores ==> scores[key] == Score(sets, key) + ScoreIn(rows, key))
  }

  lemma AddRow(scores: map<Key, real>, sets: seq<seq<Row>>, rows: seq<Row>, row: Row)
    requires PartlyAdded(scores, sets, rows)
    ensures PartlyAdded(scores[row.key := (if row.key in scores then scores[row.key] else 0.0) + Weight(|rows| + 1)],
                        sets, rows + [row])
  {
    assert (rows + [row])[..|rows|] == rows;
    if row.key !in scores {
      AbsentEverywhere(sets, row.key);
      AbsentScoresNothing(rows, row.key);
    }
    hide Weight, Score;
    assert KeysOf(rows + [row]) == KeysOf(rows) + {row.key};
  }

  method AddList(ghost sets: seq<seq<Row>>, scoresBefore: map<Key, real>, titlesBefore: map<Key, string>, rows: seq<Row>)
      returns (scores: map<Key, real>, titles: map<Key, string>)
    requires Accumulated(scoresBefore, titlesBefore, sets) && Titled(titlesBefore, sets, [])
    ensures Accumulated(scores, titles, sets + [rows]) && Titled(titles, sets + [rows], [])
  {
    NothingAdded(scoresBefore, titlesBefore, sets);
    scores, titles := AddRows(sets, scoresBefore, titlesBefore, rows);
    AllAdded(scores, titles, sets, rows);
    hide Accumulated, Titled, Adding;
  }

  method AddRows(ghost sets: seq<seq<Row>>, scoresBefore: map<Key, real>, titlesBefore: map<Key, string>, rows: seq<Row>)
      returns (scores: map<Key, real>, titles: map<Key, string>)
    requires Adding(scoresBefore, titlesBefore, sets, [])
    ensures Adding(scores, titles, sets, rows)
  {
    hide Weight, Adding;
    scores, titles := scoresBefore, titlesBefore;
    assert rows[..0] == [];
    for i := 0 to |rows|
      invariant Adding(scores, titles, sets, rows[..i])
    {
      assert rows[..i + 1] == rows[..i] + [rows[i]];
      AddBoth(scores, titles, sets, rows[..i], rows[i]);
      var key := rows[i].key;
      titles := titles[key := rows[i].title];
      scores := scores[key := (if key in scores then scores[key] else 0.0) + Weight(i + 1)];
    }
    assert rows[..|rows|] == rows;
    assert Adding(scores, titles, sets, rows);
  }

  ghost predicate Adding(scores: map<Key, real>, titles: map<Key, string>, sets: seq<seq<Row>>, rows: seq<Row>) {
    scores.Keys == titles.Keys && PartlyAdded(scores, sets, rows) && Titled(titles, sets, rows)
  }

  lemma AddBoth(scores: map<Key, real>, titles: map<Key, string>, sets: seq<seq<Row>>, rows: seq<Row>, row: Row)
    requires Adding(scores, titles, sets, rows)
    ensures Adding(scores[row.key := (if row.key in scores then scores[row.key] else 0.0) + Weight(|rows| + 1)],
                   titles[row.key := row.title], sets, rows + [row])
  {
    AddRow(scores, sets, rows, row);
    TitleRow(titles, sets, rows, row);
    hide PartlyAdded, Titled, Weight;
  }

  lemma NothingAdded(scores: map<Key, real>, titles: map<Key, string>, sets: seq<seq<Row>>)
    requires Accumulated(scores, titles, sets) && Titled(titles, sets, [])
    ensures Adding(scores, titles, sets, [])
  {
    assert KeysOf([]) == {};
  }

  lemma AllAdded(scores: map<Key, real>, titles: map<Key, string>, sets: seq<seq<Row>>, rows: seq<Row>)
    requires Adding(scores, titles, sets, rows)
    ensures Accumulated(scores, titles, sets + [rows]) && Titled(titles, sets + [rows], [])
  {
    assert (sets + [rows])[..|sets|] == sets;
    TitledList(titles, sets, rows);
    hide Titled;
  }

  /** The fused order is determined: two answers for the same lists agree on the keys, position by position. */
  lemma {:induction false} TopIsUnique(a: seq<Row>, b: seq<Row>, sets: seq<seq<Row>>, k: nat, i: nat)
    requires Top(a, sets, k) && Top(b, sets, k) && i < |a|
    ensures |a| == |b| && a[i].key == b[i].key
  {
    if i > 0 {
      forall j | 0 <= j < i ensures a[j].key == b[j].key { TopIsUnique(a, b, sets, k, j); }
    }
    if a[i].key != b[i].key {
      forall j | 0 <= j < i ensures a[j].key != b[i].key && b[j].key != a[i].key {
        assert Better(sets, b[j].key, b[i].key) && Better(sets, a[j].key, a[i].key);
      }
      LaterOrAbsent(a, sets, k, i, b[i].key);
      LaterOrAbsent(b, sets, k, i, a[i].key);
      assert false;
    }
  }

  /** So do the scores and the titles: the whole answer is determined. */
  lemma FusedRowsAreDetermined(a: seq<Row>, b: seq<Row>, sets: seq<seq<Row>>, k: nat)
    requires Top(a, sets, k) && Top(b, sets, k) && LastTitles(a, sets) && LastTitles(b, sets)
    ensures a == b
  {
    hide Better, TitleOf, Score, AllKeys;
    forall i: nat | i < |a| ensures a[i] == b[i] { TopIsUnique(a, b, sets, k, i); }
  }

  /** A key of the lists that is not among the first rows does not belong before the row that follows them. */
  lemma LaterOrAbsent(a: seq<Row>, sets: seq<seq<Row>>, k: nat, i: nat, key: Key)
    requires Top(a, sets, k) && i < |a| && key in AllKeys(sets)
    requires forall j :: 0 <= j <= i ==> a[j].key != key
    ensures Better(sets, a[i].key, key)
  {
    if exists j :: 0 <= j < |a| && a[j].key == key {
      var j :| 0 <= j < |a| && a[j].key == key;
      assert i < j;
    }
  }

  // ---- what the fusion promises about items that are better everywhere ----

  ghost predicate DistinctKeys(rows: seq<Row>) {
    forall i, j :: 0 <= i < j < |rows| ==> rows[i].key != rows[j].key
  }

  ghost predicate RankedAbove(rows: seq<Row>, a: Key, b: Key) {
    forall j :: 0 <= j < |rows| && rows[j].key == b ==> exists i :: 0 <= i < j && rows[i].key == a
  }

  lemma {:induction false} ScoreOfPosition(rows: seq<Row>, i: nat)
    requires DistinctKeys(rows) && i < |rows|
    ensures ScoreIn(rows, rows[i].key) == Weight(i + 1)
    decreases |rows|
  {
    var n := |rows| - 1;
    if i < n {
      ScoreOfPosition(rows[..n], i);
    } else {
      AbsentScoresNothing(rows[..n], rows[i].key);
    }
  }

  /** What one more list does to a score: nothing for a key it does not hold, otherwise 1 / (60 + rank). */
  lemma ListAddsItsReciprocalRank(sets: seq<seq<Row>>, rows: seq<Row>, key: Key)
    requires DistinctKeys(rows)
    ensures Score([], key) == 0.0
    ensures key !in KeysOf(rows) ==> Score(sets + [rows], key) == Score(sets, key)
    ensures forall i :: 0 <= i < |rows| && rows[i].key == key ==>
              Score(sets + [rows], key) == Score(sets, key) + 1.0 / (60 + (i + 1)) as real
  {
    assert (sets + [rows])[..|sets|] == sets;
    if key !in KeysOf(rows) { AbsentScoresNothing(rows, key); }
    forall i | 0 <= i < |rows| && rows[i].key == key
      ensures Score(sets + [rows], key) == Score(sets, key) + 1.0 / (60 + (i + 1)) as real
    {
      ScoreOfPosition(rows, i);
    }
  }

  /** The title of a key is that of its last occurrence: in the last list that holds it, its last row there. */
  lemma {:induction false} TitleIsTheLastOne(sets: seq<seq<Row>>, key: Key) returns (s: nat, i: nat)
    requires TitleOf(sets, key).Some?
    ensures s < |sets| && i < |sets[s]| && sets[s][i].key == key && TitleOf(sets, key) == Some(sets[s][i].title)
    ensures forall j :: i < j < |sets[s]| ==> sets[s][j].key != key
    ensures forall t, j :: s < t < |sets| && 0 <= j < |sets[t]| ==> sets[t][j].key != key
    decreases |sets|
  {
    var n := |sets| - 1;
    LastRowNames(sets[n], key);
    if TitleIn(sets[n], key).Some? {
      s := n;
      i :| i < |sets[n]| && LastWith(sets[n], key, i);
    } else {
      s, i := TitleIsTheLastOne(sets[..n], key);
      forall t, j | s < t < |sets| && 0 <= j < |sets[t]| ensures sets[t][j].key != key {
        if t < n { assert sets[..n][t] == sets[t]; }
      }
    }
  }

  ghost predicate LastWith(rows: seq<Row>, key: Key, i: nat) {
    && i < |rows| && rows[i].key == key && TitleIn(rows, key) == Some(rows[i].title)
    && forall j :: i < j < |rows| ==> rows[j].key != key
  }

  lemma {:induction false} LastRowNames(rows: seq<Row>, key: Key)
    ensures TitleIn(rows, key).Some? ==> exists i: nat :: LastWith(rows, key, i)
    ensures TitleIn(rows, key) == None ==> forall j :: 0 <= j < |rows| ==> rows[j].key != key
    decreases |rows|
  {
    if rows != [] {
      var n := |rows| - 1;
      LastRowNames(rows[..n], key);
      if rows[n].key == key {
        assert LastWith(rows, key, n);
      } else if TitleIn(rows, key).Some? {
        var i: nat :| LastWith(rows[..n], key, i);
        forall j | i < j < |rows| ensures rows[j].key != key { if j < n { assert rows[..n][j] == rows[j]; } }
        assert LastWith(rows, key, i);
      }
    }
  }

  lemma {:induction false} ScoresAreNotNegative(rows: seq<Row>, key: Key)
    ensures ScoreIn(rows, key) >= 0.0
    decreases |rows|
  {
    if rows != [] {
      ScoresAreNotNegative(rows[..|rows| - 1], key);
      WeightFalls(|rows|, |rows| + 1);
    }
  }

  lemma RankedAboveScoresMore(rows: seq<Row>, a: Key, b: Key)
    requires DistinctKeys(rows) && RankedAbove(rows, a, b)
    ensures ScoreIn(rows, a) >= ScoreIn(rows, b)
    ensures b in KeysOf(rows) ==> ScoreIn(rows, a) > ScoreIn(rows, b)
  {
    hide ScoreIn, Weight;
    if b in KeysOf(rows) {
      var j :| 0 <= j < |rows| && rows[j].key == b;
      var i :| 0 <= i < j && rows[i].key == a;
      ScoreOfPosition(rows, i);
      ScoreOfPosition(rows, j);
      WeightFalls(i + 1, j + 1);
    } else {
      AbsentScoresNothing(rows, b);
      ScoresAreNotNegative(rows, a);
    }
  }

  lemma {:induction false} AboveEverywhereScoresMore(sets: seq<seq<Row>>, a: Key, b: Key)
    requires forall s :: s in sets ==> DistinctKeys(s) && RankedAbove(s, a, b)
    ensures Score(sets, a) >= Score(sets, b)
    ensures b in AllKeys(sets) ==> Score(sets, a) > Score(sets, b)
    decreases |sets|
  {
    if sets != [] {
      var n := |sets| - 1;
      assert sets[n] in sets;
      forall s | s in sets[..n] ensures s in sets {}
      AboveEverywhereScoresMore(sets[..n], a, b);
      RankedAboveScoresMore(sets[n], a, b);
    }
  }

  /** An item ranked above another in every list that holds the other is never fused behind it. */
  lemma BetterEverywhereComesFirst(sets: seq<seq<Row>>, rows: seq<Row>, k: nat, a: Key, b: Key, j: nat)
    requires Top(rows, sets, k) && j < |rows| && rows[j].key == b
    requires forall s :: s in sets ==> DistinctKeys(s) && RankedAbove(s, a, b)
    ensures exists i :: 0 <= i < j && rows[i].key == a
  {
    AboveEverywhereScoresMore(sets, a, b);
    if a !in AllKeys(sets) {
      AbsentEverywhere(sets, a);
      AbsentEverywhereNotNegative(sets, b);
    }
    assert !Better(sets, rows[j].key, a);
  }

  lemma {:induction false} AbsentEverywhereNotNegative(sets: seq<seq<Row>>, key: Key)
    ensures Score(sets, key) >= 0.0
    decreases |sets|
  {
    if sets != [] {
      AbsentEverywhereNotNegative(sets[..|sets| - 1], key);
      ScoresAreNotNegative(sets[|sets| - 1], key);
    }
  }
}
