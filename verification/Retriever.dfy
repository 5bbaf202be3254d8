/**
 Retrieval from the answers of the single searches to the rows that go to the prompt: fusion and anchoring up to
 the candidate limit, reranking down to the result limit, and the neighbours behind.
 */
module Retriever {
  import opened Prelude
  import opened Fusion
  import opened Anchors
  import Adjacent
  import Reranker

  const RERANK_CANDIDATE_MULTIPLIER: nat := 3

  /** Every goal has room for a result of its own; no more than that is added to what is asked for. */
  function ResultLimit(topK: nat, goals: seq<seq<nat>>): (limit: nat)
    ensures limit >= topK && limit >= |goals| && (limit == topK || limit == |goals|)
  {
    Max(topK, |goals|)
  }

  function CandidateLimit(topK: nat, goals: seq<seq<nat>>, rerank: bool): nat {
    if rerank then ResultLimit(topK, goals) * RERANK_CANDIDATE_MULTIPLIER else ResultLimit(topK, goals)
  }

  /** A single search answers with at most `limit` rows, none twice. */
  ghost predicate Answer(rows: seq<Row>, limit: nat) {
    DistinctKeys(rows) && |rows| <= limit
  }

  ghost predicate ChunkRows(sets: seq<seq<Row>>) {
    forall key :: key in AllKeys(sets) ==> key.ChunkKey?
  }

  /** What is handed on of the searches: distinct rows of theirs, as many as the limit allows. */
  ghost predicate Gathered(rows: seq<Row>, sets: seq<seq<Row>>, limit: nat) {
    && DistinctKeys(rows) && KeysOf(rows) <= AllKeys(sets) && |rows| == Min(limit, |AllKeys(sets)|)
    && (|sets| == 1 ==> rows == sets[0])
    && (|sets| > 1 ==> (HeadsKept(sets, 1, rows) <==> |Firsts(Heads(sets, 1))| <= limit) && MergedFrom(rows, sets, limit))
  }

  /** The rows are the first hits and then the fused rows. */
  ghost predicate MergedFrom(rows: seq<Row>, sets: seq<seq<Row>>, limit: nat) {
    exists fused :: Top(fused, sets, limit) && LastTitles(fused, sets) && rows == Anchored(sets, 1, fused, limit)
  }

  lemma SingleSearch(rows: seq<Row>)
    requires DistinctKeys(rows)
    ensures AllKeys([rows]) == KeysOf(rows) && |AllKeys([rows])| == |rows|
  {
    var none: seq<seq<Row>> := [rows][..0];
    assert AllKeys(none) == {};
    DistinctCount(rows);
  }

  method GatherCandidates(sets: seq<seq<Row>>, limit: nat) returns (rows: seq<Row>)
    requires sets != [] && (|sets| == 1 ==> Answer(sets[0], limit))
    ensures Gathered(rows, sets, limit)
  {
    if |sets| == 1 {
      SingleSearch(sets[0]);
      assert sets == [sets[0]];
      return sets[0];
    }
    var fused := FuseResults(sets, limit);
    rows := MergeQueryAnchors(sets, fused, limit);
    hide Top, LastTitles, Firsts, Heads, AllKeys, HeadsKept;
    AnchoringFillsTheLimit(sets, 1, fused, limit);
    HeadsSurviveExactly(sets, 1, fused, limit);
    assert MergedFrom(rows, sets, limit);
  }

  // ---- reranking ----

  function Ids(rows: seq<Row>): seq<int>
    requires forall i :: 0 <= i < |rows| ==> rows[i].key.ChunkKey?
  {
    seq(|rows|, i requires 0 <= i < |rows| => rows[i].key.id)
  }

  /** The scores of the candidates for the questions asked: by chunk, none empty. */
  function Scored(rows: seq<Row>, scoreOf: int -> seq<real>): seq<Reranker.Scored>
    requires forall i :: 0 <= i < |rows| ==> rows[i].key.ChunkKey?
    requires forall id :: scoreOf(id) != []
  {
    Reranker.ScoredRows(Ids(rows), seq(|rows|, i requires 0 <= i < |rows| => scoreOf(rows[i].key.id)))
  }

  lemma DistinctKeysAreDistinctIds(rows: seq<Row>, scoreOf: int -> seq<real>)
    requires DistinctKeys(rows) && (forall i :: 0 <= i < |rows| ==> rows[i].key.ChunkKey?) && forall id :: scoreOf(id) != []
    ensures Reranker.DistinctIds(Scored(rows, scoreOf)) && |Scored(rows, scoreOf)| == |rows|
    ensures forall i :: 0 <= i < |rows| ==> Scored(rows, scoreOf)[i].id == rows[i].key.id
  {}

  /** Every goal has questions, all of them scored for every candidate. */
  ghost predicate GoalsScored(goals: seq<seq<nat>>, scoreOf: int -> seq<real>) {
    forall g, id :: 0 <= g < |goals| ==> goals[g] != [] && forall i :: 0 <= i < |goals[g]| ==> goals[g][i] < |scoreOf(id)|
  }

  /** The selected candidates with their combined score, and the title they were found under. */
  function RowsOf(selected: seq<Reranker.Scored>, rows: seq<Row>): seq<Row> {
    seq(|selected|, i requires 0 <= i < |selected| =>
      var key := ChunkKey(selected[i].id);
      Row(key, selected[i].combined, match TitleIn(rows, key) case Some(title) => title case None => ""))
  }

  /** Row by row, the selected candidates under their keys, with their combined scores and titles of theirs. */
  ghost predicate Carries(ranked: seq<Row>, selected: seq<Reranker.Scored>, rows: seq<Row>) {
    && |ranked| == |selected|
    && (forall i :: 0 <= i < |ranked| ==> ranked[i].key == ChunkKey(selected[i].id) && ranked[i].score == selected[i].combined)
    && (forall i :: 0 <= i < |ranked| ==> TitledAlike(ranked[i], rows))
  }

  ghost predicate TitledAlike(row: Row, rows: seq<Row>) {
    exists k :: 0 <= k < |rows| && rows[k].key == row.key && rows[k].title == row.title
  }

  /** The reranked rows: a selection that keeps every goal's best candidate. */
  ghost predicate Reranked(ranked: seq<Row>, rows: seq<Row>, limit: nat, goals: seq<seq<nat>>, scoreOf: int -> seq<real>)
    requires (forall i :: 0 <= i < |rows| ==> rows[i].key.ChunkKey?) && forall id :: scoreOf(id) != []
  {
    exists selected ::
      && Reranker.SelectedFrom(selected, Scored(rows, scoreOf), limit, goals)
      && Carries(ranked, selected, rows)
      && Reranker.Sorted(selected)
      && forall g :: 0 <= g < |goals| ==> Reranker.KeepsBest(selected, Scored(rows, scoreOf), goals[g])
  }

  /** Reranking, or the candidates as they were when it fails. */
  method RerankRows(rows: seq<Row>, limit: nat, goals: seq<seq<nat>>, scoreOf: int -> seq<real>, fails: bool)
      returns (ranked: seq<Row>)
    requires DistinctKeys(rows) && (forall i :: 0 <= i < |rows| ==> rows[i].key.ChunkKey?)
    requires limit >= 1 && limit >= |goals| && (forall id :: scoreOf(id) != []) && GoalsScored(goals, scoreOf)
    ensures DistinctKeys(ranked) && KeysOf(ranked) <= KeysOf(rows) && |ranked| == Min(limit, |rows|)
    ensures rows != [] && !fails ==> Reranked(ranked, rows, limit, goals, scoreOf)
    ensures fails ==> ranked == rows[..Min(limit, |rows|)]
  {
    if rows == [] { return []; }
    if fails { return rows[..Min(limit, |rows|)]; }
    var ids, scores := Ids(rows), seq(|rows|, i requires 0 <= i < |rows| => scoreOf(rows[i].key.id));
    GoalsAreAnswered(rows, goals, scoreOf);
    var selected := Reranker.SelectRows(ids, scores, limit, goals);
    DistinctKeysAreDistinctIds(rows, scoreOf);
    Reranker.SelectedRowsKeepEveryGoal(selected, Scored(rows, scoreOf), limit, goals);
    Reranker.SelectedRowsAreCandidates(selected, Scored(rows, scoreOf), limit, goals);
    ranked := RowsOf(selected, rows);
    SelectedKeys(selected, rows, scoreOf);
    SelectedTitles(selected, rows, scoreOf);
  }

  lemma GoalsAreAnswered(rows: seq<Row>, goals: seq<seq<nat>>, scoreOf: int -> seq<real>)
    requires (forall i :: 0 <= i < |rows| ==> rows[i].key.ChunkKey?)
    requires (forall id :: scoreOf(id) != []) && GoalsScored(goals, scoreOf)
    ensures forall g :: 0 <= g < |goals| ==> Reranker.AllAnswer(Scored(rows, scoreOf), goals[g])
  {
    forall g, k | 0 <= g < |goals| && 0 <= k < |rows| ensures Reranker.Answers(Scored(rows, scoreOf)[k], goals[g]) {
      assert Scored(rows, scoreOf)[k].scores == scoreOf(rows[k].key.id);
    }
  }

  lemma SelectedKeys(selected: seq<Reranker.Scored>, rows: seq<Row>, scoreOf: int -> seq<real>)
    requires (forall i :: 0 <= i < |rows| ==> rows[i].key.ChunkKey?) && (forall id :: scoreOf(id) != [])
    requires (forall s :: s in selected ==> s in Scored(rows, scoreOf)) && Reranker.DistinctIds(selected)
    ensures DistinctKeys(RowsOf(selected, rows)) && KeysOf(RowsOf(selected, rows)) <= KeysOf(rows)
  {
    forall i | 0 <= i < |selected| ensures ChunkKey(selected[i].id) in KeysOf(rows) {
      assert selected[i] in Scored(rows, scoreOf);
      var k :| 0 <= k < |rows| && Scored(rows, scoreOf)[k] == selected[i];
      assert rows[k] in rows && rows[k].key == ChunkKey(selected[i].id);
    }
  }

  /** A row with the key of row k names it. */
  lemma {:induction false} RowHasATitle(rows: seq<Row>, k: nat)
    requires k < |rows|
    ensures exists i :: 0 <= i < |rows| && rows[i].key == rows[k].key && TitleIn(rows, rows[k].key) == Some(rows[i].title)
  {
    var last := |rows| - 1;
    if rows[last].key != rows[k].key {
      RowHasATitle(rows[..last], k);
      var i :| 0 <= i < last && rows[..last][i].key == rows[k].key
               && TitleIn(rows[..last], rows[k].key) == Some(rows[..last][i].title);
      assert rows[i].key == rows[k].key;
    }
  }

  lemma SelectedTitles(selected: seq<Reranker.Scored>, rows: seq<Row>, scoreOf: int -> seq<real>)
    requires (forall i :: 0 <= i < |rows| ==> rows[i].key.ChunkKey?) && (forall id :: scoreOf(id) != [])
    requires forall s :: s in selected ==> s in Scored(rows, scoreOf)
    ensures Carries(RowsOf(selected, rows), selected, rows)
  {
    var ranked := RowsOf(selected, rows);
    forall i | 0 <= i < |selected| ensures TitledAlike(ranked[i], rows) {
      assert selected[i] in Scored(rows, scoreOf);
      var k :| 0 <= k < |rows| && Scored(rows, scoreOf)[k] == selected[i];
      RowHasATitle(rows, k);
      assert rows[k].key == ranked[i].key;
    }
  }

  // ---- the whole of it ----

  /** The ranked rows as chunks of the database. */
  function Chunks(ranked: seq<Row>, chunkOf: int -> Adjacent.Chunk): seq<Adjacent.Row>
    requires forall i :: 0 <= i < |ranked| ==> ranked[i].key.ChunkKey?
  {
    seq(|ranked|, i requires 0 <= i < |ranked| => Adjacent.Row(chunkOf(ranked[i].key.id), ranked[i].score, ranked[i].title))
  }

  /**
   The rows retrieval returns: as many distinct chunks of the searches as the result limit allows, in rank order,
   with every goal's best candidate when they were reranked; then at most eight neighbours.
   */
  method RetrieveChunks(sets: seq<seq<Row>>, topK: nat, goals: seq<seq<nat>>, rerank: bool, fails: bool,
                        scoreOf: int -> seq<real>, chunkOf: int -> Adjacent.Chunk, found: seq<Adjacent.Found>)
      returns (rows: seq<Adjacent.Row>, ghost candidates: seq<Row>, ghost ranked: seq<Row>)
    requires sets != [] && topK >= 1 && ChunkRows(sets)
    requires |sets| == 1 ==> Answer(sets[0], CandidateLimit(topK, goals, rerank))
    requires (forall id :: scoreOf(id) != []) && GoalsScored(goals, scoreOf)
    ensures Gathered(candidates, sets, CandidateLimit(topK, goals, rerank))
    ensures DistinctKeys(ranked) && KeysOf(ranked) <= KeysOf(candidates)
    ensures |ranked| == Min(ResultLimit(topK, goals), |AllKeys(sets)|)
    ensures forall i :: 0 <= i < |candidates| ==> candidates[i].key.ChunkKey?
    ensures forall i :: 0 <= i < |ranked| ==> ranked[i].key.ChunkKey?
    ensures rerank && !fails && candidates != [] ==> Reranked(ranked, candidates, ResultLimit(topK, goals), goals, scoreOf)
    ensures rerank && fails ==> ranked == candidates[..Min(ResultLimit(topK, goals), |candidates|)]
    ensures !rerank ==> ranked == candidates
    ensures |candidates| == Min(if rerank then 3 * ResultLimit(topK, goals) else ResultLimit(topK, goals), |AllKeys(sets)|)
    ensures |rows| >= |ranked| && forall i :: 0 <= i < |ranked| ==>
              rows[i].chunk == chunkOf(ranked[i].key.id) && rows[i].score == ranked[i].score && rows[i].title == ranked[i].title
    ensures rows[|ranked|..] == Adjacent.Additions(rows[..|ranked|], found)
    ensures |rows| <= ResultLimit(topK, goals) + Adjacent.MAX_ADJACENT_CHUNKS
  {
    hide Gathered, Reranked, DistinctKeys, AllKeys, GoalsScored, ChunkRows, Adjacent.Additions;
    var kept;
    candidates, kept := RankedCandidates(sets, topK, goals, rerank, fails, scoreOf);
    ranked := kept;
    rows := Adjacent.ExpandWithAdjacentChunks(Chunks(kept, chunkOf), found);
    AtMostEight(Chunks(kept, chunkOf), found);
    assert rows[..|kept|] == Chunks(kept, chunkOf);
  }

  lemma AtMostEight(rows: seq<Adjacent.Row>, found: seq<Adjacent.Found>)
    ensures |Adjacent.Additions(rows, found)| <= Adjacent.MAX_ADJACENT_CHUNKS
  {
    var requests := Adjacent.Requests(rows, |rows|);
    Adjacent.AdditionsFitTheBudgets(requests, |requests|, Adjacent.ByPlace(found), Adjacent.Ids(rows));
  }

  /** The candidates, and the rows that are kept of them. */
  method RankedCandidates(sets: seq<seq<Row>>, topK: nat, goals: seq<seq<nat>>, rerank: bool, fails: bool,
                          scoreOf: int -> seq<real>)
      returns (ghost candidates: seq<Row>, ranked: seq<Row>)
    requires sets != [] && topK >= 1 && ChunkRows(sets)
    requires |sets| == 1 ==> Answer(sets[0], CandidateLimit(topK, goals, rerank))
    requires (forall id :: scoreOf(id) != []) && GoalsScored(goals, scoreOf)
    ensures Gathered(candidates, sets, CandidateLimit(topK, goals, rerank))
    ensures DistinctKeys(ranked) && KeysOf(ranked) <= KeysOf(candidates)
    ensures |ranked| == Min(ResultLimit(topK, goals), |AllKeys(sets)|)
    ensures forall i :: 0 <= i < |candidates| ==> candidates[i].key.ChunkKey?
    ensures forall i :: 0 <= i < |ranked| ==> ranked[i].key.ChunkKey?
    ensures rerank && !fails && candidates != [] ==> Reranked(ranked, candidates, ResultLimit(topK, goals), goals, scoreOf)
    ensures rerank && fails ==> ranked == candidates[..Min(ResultLimit(topK, goals), |candidates|)]
    ensures !rerank ==> ranked == candidates
    ensures |candidates| == Min(if rerank then 3 * ResultLimit(topK, goals) else ResultLimit(topK, goals), |AllKeys(sets)|)
  {
    hide Reranked, AllKeys, MergedFrom, HeadsKept;
    var gathered := GatherCandidates(sets, CandidateLimit(topK, goals, rerank));
    candidates := gathered;
    OnlyChunks(gathered, AllKeys(sets));
    ranked := gathered;
    if rerank { ranked := RerankRows(gathered, ResultLimit(topK, goals), goals, scoreOf, fails); }
    OnlyChunks(ranked, AllKeys(sets));
  }

  lemma OnlyChunks(rows: seq<Row>, keys: set<Key>)
    requires KeysOf(rows) <= keys && forall key :: key in keys ==> key.ChunkKey?
    ensures forall i :: 0 <= i < |rows| ==> rows[i].key.ChunkKey?
  {
    forall i | 0 <= i < |rows| ensures rows[i].key.ChunkKey? {
      assert rows[i] in rows;
      assert rows[i].key in KeysOf(rows);
    }
  }

  /** With reranking, every query's first hit is a candidate whenever fewer goals than wanted results ask at most
      three queries each. */
  lemma FirstHitsSurviveSmallPlans(sets: seq<seq<Row>>, topK: nat, goals: seq<seq<nat>>, candidates: seq<Row>)
    requires |goals| < topK && 1 < |sets| <= 1 + 3 * |goals|
    requires Gathered(candidates, sets, CandidateLimit(topK, goals, true))
    ensures HeadsKept(sets, 1, candidates)
  {
    OneHitEach(sets);
  }
}
