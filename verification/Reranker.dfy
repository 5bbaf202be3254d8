/** The reranker's choice: one reserved candidate per evidence goal, the rest by combined score. */
module Reranker {
  import opened Prelude
  import opened Scores

  /** A candidate with its retrieval rank, its score per query and its combined score. */
  datatype Scored = Scored(id: int, rank: nat, scores: seq<real>, combined: real)

  function ScoredRows(ids: seq<int>, scores: seq<seq<real>>): seq<Scored>
    requires |ids| == |scores| && forall i :: 0 <= i < |scores| ==> scores[i] != []
  {
    seq(|ids|, i requires 0 <= i < |ids| => Scored(ids[i], i + 1, scores[i], CombinedScore(scores[i], i + 1, |ids|)))
  }

  // ---- sorting by score ----

  predicate Ahead(a: Scored, b: Scored) {
    a.combined > b.combined
    || (a.combined == b.combined && (a.rank < b.rank || (a.rank == b.rank && a.id < b.id)))
  }

  ghost predicate Sorted(rows: seq<Scored>) {
    forall i, j :: 0 <= i < j < |rows| ==> Ahead(rows[i], rows[j])
  }

  /** sort() by falling combined score, then rank, then id, of rows whose ranks differ. */
  method SortRows(rows: seq<Scored>) returns (sorted: seq<Scored>)
    requires forall i, j :: 0 <= i < j < |rows| ==> rows[i].rank < rows[j].rank
    ensures Sorted(sorted) && multiset(sorted) == multiset(rows)
  {
    sorted := [];
    for i := 0 to |rows|
      invariant Sorted(sorted) && multiset(sorted) == multiset(rows[..i])
    {
      assert rows[..i + 1] == rows[..i] + [rows[i]];
      forall s | s in sorted ensures s.rank < rows[i].rank {
        assert s in multiset(sorted);
        assert s in rows[..i];
      }
      sorted := InsertRow(sorted, rows[i]);
    }
    assert rows[..|rows|] == rows;
  }

  method InsertRow(sorted: seq<Scored>, row: Scored) returns (longer: seq<Scored>)
    requires Sorted(sorted) && forall s :: s in sorted ==> s.rank < row.rank
    ensures Sorted(longer) && multiset(longer) == multiset(sorted) + multiset{row}
  {
    var at := 0;
    while at < |sorted| && Ahead(sorted[at], row)
      invariant 0 <= at <= |sorted|
      invariant forall i :: 0 <= i < at ==> Ahead(sorted[i], row)
    {
      at := at + 1;
    }
    longer := sorted[..at] + [row] + sorted[at..];
    Inserted(sorted, at, row);
  }

  lemma Inserted(sorted: seq<Scored>, at: nat, row: Scored)
    requires at <= |sorted| && Sorted(sorted) && forall i :: 0 <= i < at ==> Ahead(sorted[i], row)
    requires at < |sorted| ==> !Ahead(sorted[at], row) && sorted[at].rank < row.rank
    ensures Sorted(sorted[..at] + [row] + sorted[at..])
    ensures multiset(sorted[..at] + [row] + sorted[at..]) == multiset(sorted) + multiset{row}
  {
    assert sorted == sorted[..at] + sorted[at..];
    forall i | at <= i < |sorted| ensures Ahead(row, sorted[i]) {
      assert Ahead(row, sorted[at]);
      assert i > at ==> Ahead(sorted[at], sorted[i]);
    }
    hide Ahead;
  }

  // ---- the reserved candidate of a goal ----

  ghost predicate Answers(row: Scored, queries: seq<nat>) {
    queries != [] && forall i :: 0 <= i < |queries| ==> queries[i] < |row.scores|
  }

  ghost predicate AllAnswer(rows: seq<Scored>, queries: seq<nat>) {
    forall k :: 0 <= k < |rows| ==> Answers(rows[k], queries)
  }

  function GoalScore(row: Scored, queries: seq<nat>): real
    requires Answers(row, queries)
  {
    Maximum(seq(|queries|, i requires 0 <= i < |queries| => row.scores[queries[i]]))
  }

  /** The score of a row on a goal is its best score among the goal's queries. */
  lemma GoalScoreIsTheBest(row: Scored, queries: seq<nat>)
    requires Answers(row, queries)
    ensures exists i :: 0 <= i < |queries| && row.scores[queries[i]] == GoalScore(row, queries)
    ensures forall i :: 0 <= i < |queries| ==> row.scores[queries[i]] <= GoalScore(row, queries)
  {
    var scores := seq(|queries|, i requires 0 <= i < |queries| => row.scores[queries[i]]);
    var best := Maximum(scores);
    var i :| 0 <= i < |scores| && scores[i] == best;
    forall i | 0 <= i < |queries| ensures row.scores[queries[i]] <= best {
      assert scores[i] in scores;
    }
  }

  /** a beats b on a goal: a higher score, or the same and a retrieval rank at least as good. */
  ghost predicate Beats(a: Scored, b: Scored, queries: seq<nat>)
    requires Answers(a, queries) && Answers(b, queries)
  {
    GoalScore(a, queries) > GoalScore(b, queries)
    || (GoalScore(a, queries) == GoalScore(b, queries) && a.rank <= b.rank)
  }

  ghost predicate BestAt(rows: seq<Scored>, queries: seq<nat>, best: nat) {
    best < |rows| && AllAnswer(rows, queries) && forall k :: 0 <= k < |rows| ==> Beats(rows[best], rows[k], queries)
  }

  /** max() over the rows by goal score, then better rank, then smaller id. */
  method BestForGoal(rows: seq<Scored>, queries: seq<nat>) returns (best: nat)
    requires rows != [] && AllAnswer(rows, queries)
    ensures BestAt(rows, queries, best)
  {
    best := 0;
    for i := 1 to |rows|
      invariant best < |rows| && forall k :: 0 <= k < i ==> Beats(rows[best], rows[k], queries)
    {
      var score, top := GoalScore(rows[i], queries), GoalScore(rows[best], queries);
      if score > top || (score == top && (rows[i].rank < rows[best].rank
                                          || (rows[i].rank == rows[best].rank && rows[i].id < rows[best].id))) {
        best := i;
      }
    }
  }

  // ---- the selection ----

  /** Reserving the ids at these positions stops when the limit is reached. */
  function Reserve(rows: seq<Scored>, best: seq<nat>, limit: int): set<int>
    requires forall g :: 0 <= g < |best| ==> best[g] < |rows|
  {
    if best == [] then {}
    else
      var before := Reserve(rows, best[..|best| - 1], limit);
      if |best| > 1 && |before| == limit then before else before + {rows[best[|best| - 1]].id}
  }

  /** The best rows join until the limit is reached. */
  function FillUp(ids: set<int>, rows: seq<Scored>, from: nat, limit: int): set<int>
    requires from <= |rows|
    decreases |rows| - from
  {
    if from == |rows| || |ids| == limit then ids else FillUp(ids + {rows[from].id}, rows, from + 1, limit)
  }

  function Chosen(rows: seq<Scored>, n: nat, ids: set<int>): seq<Scored>
    requires n <= |rows|
  {
    if n == 0 then [] else Chosen(rows, n - 1, ids) + if rows[n - 1].id in ids then [rows[n - 1]] else []
  }

  function Selection(rows: seq<Scored>, best: seq<nat>, limit: int): seq<Scored>
    requires forall g :: 0 <= g < |best| ==> best[g] < |rows|
  {
    Chosen(rows, |rows|, FillUp(Reserve(rows, best, limit), rows, 0, limit))
  }

  ghost predicate GoalsBest(rows: seq<Scored>, goals: seq<seq<nat>>, best: seq<nat>) {
    |best| == |goals| && forall g :: 0 <= g < |goals| ==> BestAt(rows, goals[g], best[g])
  }

  /** The selection over the sorted rows with one best row per goal. */
  ghost predicate SelectsFrom(selected: seq<Scored>, rows: seq<Scored>, limit: int, goals: seq<seq<nat>>,
                              sorted: seq<Scored>, best: seq<nat>)
  {
    && Sorted(sorted) && multiset(sorted) == multiset(rows) && GoalsBest(sorted, goals, best)
    && (forall g :: 0 <= g < |best| ==> best[g] < |sorted|)
    && selected == Selection(sorted, best, limit)
  }

  ghost predicate SelectedFrom(selected: seq<Scored>, rows: seq<Scored>, limit: int, goals: seq<seq<nat>>) {
    exists sorted, best :: SelectsFrom(selected, rows, limit, goals, sorted, best)
  }

  /** The rows are sorted, then one best row per goal is reserved, then the rest is filled up in order. */
  method SelectRows(ids: seq<int>, scores: seq<seq<real>>, limit: int, goals: seq<seq<nat>>)
      returns (selected: seq<Scored>)
    requires |ids| == |scores| && ids != []
    requires forall i :: 0 <= i < |scores| ==> scores[i] != []
    requires forall g :: 0 <= g < |goals| ==> AllAnswer(ScoredRows(ids, scores), goals[g])
    ensures SelectedFrom(selected, ScoredRows(ids, scores), limit, goals)
  {
    var rows := SortRows(ScoredRows(ids, scores));
    assert |rows| == |multiset(rows)| == |multiset(ScoredRows(ids, scores))|;
    forall g | 0 <= g < |goals| ensures AllAnswer(rows, goals[g]) {
      SameRowsAnswer(ScoredRows(ids, scores), rows, goals[g]);
    }
    hide AllAnswer, Sorted, ScoredRows;
    var reserved, best := ReserveBest(rows, goals, limit);
    var chosen := FillSelection(reserved, rows, limit);
    selected := TakeChosen(rows, chosen);
    assert SelectsFrom(selected, ScoredRows(ids, scores), limit, goals, rows, best);
  }

  method TakeChosen(rows: seq<Scored>, chosen: set<int>) returns (selected: seq<Scored>)
    ensures selected == Chosen(rows, |rows|, chosen)
  {
    selected := [];
    for k := 0 to |rows|
      invariant selected == Chosen(rows, k, chosen)
    {
      if rows[k].id in chosen { selected := selected + [rows[k]]; }
    }
  }

  lemma SameRowsAnswer(a: seq<Scored>, b: seq<Scored>, queries: seq<nat>)
    requires multiset(a) == multiset(b) && AllAnswer(a, queries)
    ensures AllAnswer(b, queries)
  {
    forall k | 0 <= k < |b| ensures Answers(b[k], queries) {
      assert b[k] in multiset(a);
      var i :| 0 <= i < |a| && a[i] == b[k];
    }
  }

  method ReserveBest(rows: seq<Scored>, goals: seq<seq<nat>>, limit: int) returns (chosen: set<int>, ghost best: seq<nat>)
    requires rows != [] && forall g :: 0 <= g < |goals| ==> AllAnswer(rows, goals[g])
    ensures GoalsBest(rows, goals, best) && chosen == Reserve(rows, best, limit)
  {
    hide BestAt, AllAnswer;
    chosen, best := {}, [];
    assert chosen == Reserve(rows, best, limit);
    hide Reserve;
    // No more candidates are reserved once the limit is reached; their positions are still named, for the contract.
    var stopped := false;
    for g := 0 to |goals|
      invariant |best| == g && (forall k :: 0 <= k < g ==> BestAt(rows, goals[k], best[k]))
      invariant forall k :: 0 <= k < g ==> best[k] < |rows|
      invariant chosen == Reserve(rows, best, limit) && stopped == (g > 0 && |chosen| == limit)
    {
      var at := BestForGoal(rows, goals[g]);
      BestIsARow(rows, goals[g], at);
      ReserveNext(rows, best, at, limit);
      best := best + [at];
      if !stopped {
        chosen := chosen + {rows[at].id};
        stopped := |chosen| == limit;
      }
    }
  }

  lemma ReserveNext(rows: seq<Scored>, best: seq<nat>, at: nat, limit: int)
    requires at < |rows| && forall g :: 0 <= g < |best| ==> best[g] < |rows|
    ensures var before := Reserve(rows, best, limit);
            Reserve(rows, best + [at], limit) ==
              if best != [] && |before| == limit then before else before + {rows[at].id}
  {
    assert (best + [at])[..|best|] == best;
  }

  lemma BestIsARow(rows: seq<Scored>, queries: seq<nat>, best: nat)
    requires BestAt(rows, queries, best)
    ensures best < |rows|
  {}

  method FillSelection(reserved: set<int>, rows: seq<Scored>, limit: int) returns (chosen: set<int>)
    ensures chosen == FillUp(reserved, rows, 0, limit)
  {
    chosen := reserved;
    var i := 0;
    while i < |rows| && |chosen| != limit
      invariant 0 <= i <= |rows| && FillUp(chosen, rows, i, limit) == FillUp(reserved, rows, 0, limit)
    {
      chosen := chosen + {rows[i].id};
      i := i + 1;
    }
  }

  // ---- what the selection is ----

  ghost predicate DistinctIds(rows: seq<Scored>) {
    forall i, j :: 0 <= i < j < |rows| ==> rows[i].id != rows[j].id
  }

  ghost function IdsOf(rows: seq<Scored>, from: nat, to: nat): set<int>
    requires from <= to <= |rows|
  {
    set k | from <= k < to :: rows[k].id
  }

  lemma {:induction false} ReserveTakesEveryGoal(rows: seq<Scored>, best: seq<nat>, limit: int)
    requires (forall g :: 0 <= g < |best| ==> best[g] < |rows|) && |best| <= limit
    ensures Reserve(rows, best, limit) == set g | 0 <= g < |best| :: rows[best[g]].id
    ensures |Reserve(rows, best, limit)| <= |best|
    decreases |best|
  {
    if best != [] { ReserveTakesEveryGoal(rows, best[..|best| - 1], limit); }
  }

  lemma {:induction false} FillUpTakesAPrefix(ids: set<int>, rows: seq<Scored>, from: nat, limit: int) returns (cut: nat)
    requires from <= |rows| && |ids| <= limit
    ensures from <= cut <= |rows|
    ensures FillUp(ids, rows, from, limit) == ids + IdsOf(rows, from, cut)
    ensures |FillUp(ids, rows, from, limit)| <= limit
    ensures cut == |rows| || |FillUp(ids, rows, from, limit)| == limit
    decreases |rows| - from
  {
    hide IdsOf;
    if from == |rows| || |ids| == limit {
      cut := from;
      NoIds(rows, from);
    } else {
      cut := FillUpTakesAPrefix(ids + {rows[from].id}, rows, from + 1, limit);
      FirstId(rows, from, cut);
      assert ids + ({rows[from].id} + IdsOf(rows, from + 1, cut)) == (ids + {rows[from].id}) + IdsOf(rows, from + 1, cut);
    }
  }

  lemma NoIds(rows: seq<Scored>, from: nat)
    requires from <= |rows|
    ensures IdsOf(rows, from, from) == {}
  {}

  lemma FirstId(rows: seq<Scored>, from: nat, to: nat)
    requires from < to <= |rows|
    ensures IdsOf(rows, from, to) == {rows[from].id} + IdsOf(rows, from + 1, to)
  {
  }

  lemma {:induction false} ChosenHolds(rows: seq<Scored>, n: nat, ids: set<int>, row: Scored)
    requires n <= |rows|
    ensures row in Chosen(rows, n, ids) <==> exists k :: 0 <= k < n && rows[k] == row && row.id in ids
  {
    if n > 0 { ChosenHolds(rows, n - 1, ids, row); }
  }

  lemma {:induction false} ChosenStaysSorted(rows: seq<Scored>, n: nat, ids: set<int>)
    requires n <= |rows| && Sorted(rows)
    ensures Sorted(Chosen(rows, n, ids))
  {
    if n > 0 {
      ChosenStaysSorted(rows, n - 1, ids);
      var before := Chosen(rows, n - 1, ids);
      forall k | 0 <= k < |before| ensures Ahead(before[k], rows[n - 1]) { ChosenHolds(rows, n - 1, ids, before[k]); }
    }
  }

  lemma {:induction false} ChosenCount(rows: seq<Scored>, n: nat, ids: set<int>)
    requires n <= |rows| && DistinctIds(rows)
    ensures |Chosen(rows, n, ids)| == |ids * IdsOf(rows, 0, n)|
  {
    hide Chosen, IdsOf;
    ChosenNext(rows, n, ids);
    if n > 0 {
      ChosenCount(rows, n - 1, ids);
      NextId(rows, n);
      OneMoreId(ids, IdsOf(rows, 0, n - 1), rows[n - 1].id);
    }
  }

  lemma ChosenNext(rows: seq<Scored>, n: nat, ids: set<int>)
    requires n <= |rows|
    ensures n == 0 ==> Chosen(rows, n, ids) == [] && IdsOf(rows, 0, n) == {}
    ensures n > 0 ==> Chosen(rows, n, ids) == Chosen(rows, n - 1, ids) + if rows[n - 1].id in ids then [rows[n - 1]] else []
  {}

  lemma NextId(rows: seq<Scored>, n: nat)
    requires 0 < n <= |rows| && DistinctIds(rows)
    ensures IdsOf(rows, 0, n) == IdsOf(rows, 0, n - 1) + {rows[n - 1].id}
    ensures rows[n - 1].id !in IdsOf(rows, 0, n - 1)
  {}

  lemma OneMoreId(ids: set<int>, seen: set<int>, id: int)
    requires id !in seen
    ensures |ids * (seen + {id})| == |ids * seen| + if id in ids then 1 else 0
  {
    assert ids * (seen + {id}) == ids * seen + if id in ids then {id} else {};
  }

  lemma {:induction false} ChosenPrefix(rows: seq<Scored>, n: nat, ids: set<int>, cut: nat)
    requires n <= |rows| && forall k :: 0 <= k < n ==> (rows[k].id in ids <==> k < cut)
    ensures Chosen(rows, n, ids) == rows[..Min(n, cut)]
  {
    if n > 0 { ChosenPrefix(rows, n - 1, ids, cut); }
  }

  /**
   With distinct ids and a limit of at least 1 and at least the number of goals, min(limit, n) rows are
   selected, in score order: the best row of every goal and, of the others, exactly those before some cut.
   */
  lemma SelectionKeepsEveryGoal(rows: seq<Scored>, goals: seq<seq<nat>>, best: seq<nat>, limit: int) returns (cut: nat)
    requires Sorted(rows) && DistinctIds(rows) && GoalsBest(rows, goals, best)
    requires limit >= 1 && limit >= |goals|
    ensures var selected := Selection(rows, best, limit);
            && |selected| == Min(limit, |rows|) && Sorted(selected)
            && (forall k :: 0 <= k < |rows| ==> (rows[k] in selected <==> k in best || k < cut))
  {
    forall g | 0 <= g < |best| ensures best[g] < |rows| { BestIsARow(rows, goals[g], best[g]); }
    hide BestAt, Ahead;
    var ids;
    ids, cut := SelectedIds(rows, best, limit);
    hide FillUp, Reserve, Chosen, IdsOf;
    ChosenCount(rows, |rows|, ids);
    ChosenStaysSorted(rows, |rows|, ids);
    forall k | 0 <= k < |rows| ensures rows[k] in Selection(rows, best, limit) <==> k in best || k < cut {
      ChosenHolds(rows, |rows|, ids, rows[k]);
    }
  }

  lemma SelectedIds(rows: seq<Scored>, best: seq<nat>, limit: int) returns (ids: set<int>, cut: nat)
    requires DistinctIds(rows) && (forall g :: 0 <= g < |best| ==> best[g] < |rows|) && |best| <= limit
    ensures ids == FillUp(Reserve(rows, best, limit), rows, 0, limit)
    ensures |ids * IdsOf(rows, 0, |rows|)| == Min(limit, |rows|)
    ensures forall k :: 0 <= k < |rows| ==> (rows[k].id in ids <==> k in best || k < cut)
  {
    var reserved := Reserve(rows, best, limit);
    ReserveTakesEveryGoal(rows, best, limit);
    cut := FillUpTakesAPrefix(reserved, rows, 0, limit);
    ids := FillUp(reserved, rows, 0, limit);
    hide FillUp, Reserve;
    WhichIds(rows, best, ids, cut);
    assert ids * IdsOf(rows, 0, |rows|) == ids;
    if cut == |rows| { assert ids == IdsOf(rows, 0, |rows|); }
    AllIds(rows, |rows|);
    hide IdsOf, DistinctIds;
    IdsFit(rows, ids);
  }

  lemma WhichIds(rows: seq<Scored>, best: seq<nat>, ids: set<int>, cut: nat)
    requires DistinctIds(rows) && (forall g :: 0 <= g < |best| ==> best[g] < |rows|) && cut <= |rows|
    requires ids == (set g | 0 <= g < |best| :: rows[best[g]].id) + IdsOf(rows, 0, cut)
    ensures forall k :: 0 <= k < |rows| ==> (rows[k].id in ids <==> k in best || k < cut)
  {
    forall k | 0 <= k < |rows| ensures rows[k].id in ids <==> k in best || k < cut {}
  }

  lemma {:induction false} AllIds(rows: seq<Scored>, n: nat)
    requires n <= |rows| && DistinctIds(rows)
    ensures |IdsOf(rows, 0, n)| == n
  {
    if n > 0 {
      AllIds(rows, n - 1);
      NextId(rows, n);
      hide IdsOf;
    }
  }

  lemma {:induction false} IdsFit(rows: seq<Scored>, ids: set<int>)
    requires ids <= IdsOf(rows, 0, |rows|) && |IdsOf(rows, 0, |rows|)| == |rows|
    ensures |ids| <= |rows|
  {
    assert |IdsOf(rows, 0, |rows|) - ids| == |rows| - |ids|;
  }

  /** The row is the best of all rows for one of the goals. */
  ghost predicate BestOfAGoal(rows: seq<Scored>, goals: seq<seq<nat>>, row: Scored) {
    exists g :: 0 <= g < |goals| && BestOf(rows, goals[g], row)
  }

  ghost predicate BestOf(rows: seq<Scored>, queries: seq<nat>, row: Scored) {
    row in rows && AllAnswer(rows, queries) && Answers(row, queries)
    && forall k :: 0 <= k < |rows| ==> Beats(row, rows[k], queries)
  }

  ghost predicate KeepsBest(selected: seq<Scored>, rows: seq<Scored>, queries: seq<nat>) {
    exists s :: s in selected && BestOf(rows, queries, s)
  }

  /** A higher combined score, or the same and an earlier place in the retrieval. */
  ghost predicate ScoresHigher(a: Scored, b: Scored) {
    a.combined > b.combined || (a.combined == b.combined && a.rank <= b.rank)
  }

  /** The same in terms of the unsorted candidates: the count, the order, a best row of every goal, and nothing
      left out that is ahead of a selected row, except behind a goal's best. */
  lemma SelectedRowsKeepEveryGoal(selected: seq<Scored>, rows: seq<Scored>, limit: int, goals: seq<seq<nat>>)
    requires SelectedFrom(selected, rows, limit, goals) && DistinctIds(rows) && limit >= 1 && limit >= |goals|
    ensures |selected| == Min(limit, |rows|) && Sorted(selected)
    ensures forall i, j :: 0 <= i < j < |selected| ==> ScoresHigher(selected[i], selected[j])
    ensures forall g :: 0 <= g < |goals| ==> KeepsBest(selected, rows, goals[g])
    ensures forall r, s :: r in rows && r !in selected && s in selected && s in rows ==>
              ScoresHigher(s, r) || BestOfAGoal(rows, goals, s)
  {
    var sorted, best :| SelectsFrom(selected, rows, limit, goals, sorted, best);
    assert |sorted| == |multiset(sorted)| == |multiset(rows)|;
    SortedStaysDistinct(rows, sorted);
    var cut := SelectionKeepsEveryGoal(sorted, goals, best, limit);
    hide Selection, DistinctIds, BestAt, BestOf;
    forall g | 0 <= g < |goals| ensures KeepsBest(selected, rows, goals[g]) {
      BestIsARow(sorted, goals[g], best[g]);
      BestStaysBest(rows, sorted, goals[g], best[g]);
      assert sorted[best[g]] in selected;
    }
    forall r, s | r in rows && r !in selected && s in selected && s in rows
      ensures ScoresHigher(s, r) || BestOfAGoal(rows, goals, s)
    {
      var a := PositionOf(rows, sorted, r);
      var b := PositionOf(rows, sorted, s);
      if b in best {
        var g :| 0 <= g < |best| && best[g] == b;
        BestStaysBest(rows, sorted, goals[g], b);
      }
    }
  }

  /** A selected row carries the id, the rank and the scores of one candidate. */
  ghost predicate IsCandidate(s: Scored, ids: seq<int>, scores: seq<seq<real>>, i: nat)
    requires |ids| == |scores|
  {
    && i < |ids| && scores[i] != []
    && s.id == ids[i] && s.rank == i + 1 && s.scores == scores[i] && s.combined == CombinedScore(scores[i], i + 1, |ids|)
  }

  lemma SelectedRowsCarryTheirScores(selected: seq<Scored>, ids: seq<int>, scores: seq<seq<real>>, limit: int,
                                     goals: seq<seq<nat>>)
    requires |ids| == |scores| && forall i :: 0 <= i < |scores| ==> scores[i] != []
    requires SelectedFrom(selected, ScoredRows(ids, scores), limit, goals)
    ensures forall s :: s in selected ==> exists i :: IsCandidate(s, ids, scores, i)
  {
    hide Reserve, FillUp, Chosen, Sorted, GoalsBest, IsCandidate, ScoredRows, SelectsFrom;
    var rows := ScoredRows(ids, scores);
    var sorted, best :| SelectsFrom(selected, rows, limit, goals, sorted, best);
    forall s | s in selected ensures exists i :: IsCandidate(s, ids, scores, i) {
      SelectedIsAmong(selected, rows, limit, goals, sorted, best, s);
      var i :| 0 <= i < |rows| && rows[i] == s;
      RowIsCandidate(ids, scores, i);
    }
  }

  lemma SelectedIsAmong(selected: seq<Scored>, rows: seq<Scored>, limit: int, goals: seq<seq<nat>>,
                        sorted: seq<Scored>, best: seq<nat>, s: Scored)
    requires SelectsFrom(selected, rows, limit, goals, sorted, best) && s in selected
    ensures s in rows
  {
    hide Reserve, FillUp, Chosen, Sorted, GoalsBest;
    ChosenHolds(sorted, |sorted|, FillUp(Reserve(sorted, best, limit), sorted, 0, limit), s);
    assert s in multiset(sorted);
    assert s in multiset(rows);
  }

  lemma RowIsCandidate(ids: seq<int>, scores: seq<seq<real>>, i: nat)
    requires |ids| == |scores| && forall k :: 0 <= k < |scores| ==> scores[k] != []
    requires i < |ScoredRows(ids, scores)|
    ensures IsCandidate(ScoredRows(ids, scores)[i], ids, scores, i)
  {
    hide CombinedScore;
  }

  /** Selected rows are candidates, and none is selected twice. */
  lemma SelectedRowsAreCandidates(selected: seq<Scored>, rows: seq<Scored>, limit: int, goals: seq<seq<nat>>)
    requires SelectedFrom(selected, rows, limit, goals) && DistinctIds(rows)
    ensures (forall s :: s in selected ==> s in rows) && DistinctIds(selected)
  {
    var sorted, best :| SelectsFrom(selected, rows, limit, goals, sorted, best);
    SortedStaysDistinct(rows, sorted);
    var ids := FillUp(Reserve(sorted, best, limit), sorted, 0, limit);
    ChosenStaysSorted(sorted, |sorted|, ids);
    hide Reserve, FillUp, Chosen;
    forall s | s in selected ensures s in rows {
      ChosenHolds(sorted, |sorted|, ids, s);
      assert s in multiset(rows);
    }
    forall i, j | 0 <= i < j < |selected| ensures selected[i].id != selected[j].id {
      assert Ahead(selected[i], selected[j]) && selected[i] in rows && selected[j] in rows;
    }
  }

  lemma PositionOf(rows: seq<Scored>, sorted: seq<Scored>, row: Scored) returns (k: nat)
    requires multiset(sorted) == multiset(rows) && row in rows
    ensures k < |sorted| && sorted[k] == row
  {
    assert row in multiset(sorted);
    k :| k < |sorted| && sorted[k] == row;
  }

  lemma SortedStaysDistinct(rows: seq<Scored>, sorted: seq<Scored>)
    requires Sorted(sorted) && multiset(sorted) == multiset(rows) && DistinctIds(rows)
    ensures DistinctIds(sorted)
  {
    forall i, j | 0 <= i < j < |sorted| ensures sorted[i].id != sorted[j].id {
      assert Ahead(sorted[i], sorted[j]);
      assert sorted[i] in multiset(rows) && sorted[j] in multiset(rows);
      var a :| 0 <= a < |rows| && rows[a] == sorted[i];
      var b :| 0 <= b < |rows| && rows[b] == sorted[j];
    }
  }

  lemma BestStaysBest(rows: seq<Scored>, sorted: seq<Scored>, queries: seq<nat>, best: nat)
    requires multiset(sorted) == multiset(rows) && BestAt(sorted, queries, best)
    ensures best < |sorted| && BestOf(rows, queries, sorted[best])
  {
    SameRowsAnswer(sorted, rows, queries);
    assert sorted[best] in multiset(rows);
    assert Answers(sorted[best], queries);
    forall k | 0 <= k < |rows| ensures Beats(sorted[best], rows[k], queries) {
      assert rows[k] in rows;
      var i := PositionOf(rows, sorted, rows[k]);
    }
  }

  /** Without goals the selection is the plain top of the ranking. */
  lemma SelectionWithoutGoalsIsTheTop(rows: seq<Scored>, limit: int)
    requires DistinctIds(rows) && limit >= 0
    ensures Selection(rows, [], limit) == rows[..Min(limit, |rows|)]
  {
    var cut := FillUpTakesAPrefix({}, rows, 0, limit);
    var ids := FillUp({}, rows, 0, limit);
    hide FillUp, Chosen;
    ChosenPrefix(rows, |rows|, ids, cut);
    AllIds(rows, cut);
    AllIds(rows, |rows|);
    IdsFit(rows, ids);
  }
}
