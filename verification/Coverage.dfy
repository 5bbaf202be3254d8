/**
 The evidence check: which planned goals the retrieved chunks answer, the bounded retries for the rest, the
 log of the assessments, and the matrix that is rebuilt from that log to steer generation. What the language
 model replies and what the searches find are arbitrary.
 */
module Coverage {
  import opened Prelude
  import opened Retrieved

  const MAX_RETRY_CONTEXT_CHUNKS: nat := 16
  const MAX_RETRY_CONTEXT_CHARS: nat := 24000
  const MAX_RETRIEVAL_ACTIONS: nat := 2

  datatype Goal = Goal(id: string, description: string, queries: seq<string>)

  datatype Status = Supported | Partial | Missing | Contradicted | Unchecked

  datatype Reference = Reference(chunkId: int, title: string, pageStart: Option<int>, pageEnd: Option<int>)

  datatype GoalCoverage = GoalCoverage(
    goalId: string, description: string, status: Status, evidence: seq<Reference>, retryQueries: seq<string>)

  predicate Sufficient(assessment: seq<GoalCoverage>) {
    assessment != [] && forall k :: 0 <= k < |assessment| ==> assessment[k].status == Supported
  }

  // ---- the model's answer ----

  /** One element of the answer after JSON decoding and string normalization; None stands for a value of
      another type than the expected one. */
  datatype RawResult = RawResult(
    goalId: string, chunkIds: Option<seq<Option<int>>>, status: Option<string>, retryQueries: Option<seq<string>>)

  datatype Reply = Failed | Malformed | Results(results: seq<RawResult>)

  function StatusNamed(name: string): Option<Status> {
    if name in {"supported", "complete", "fully_supported", "sufficient"} then Some(Supported)
    else if name in {"partial", "partially_supported", "insufficient"} then Some(Partial)
    else if name in {"missing", "unsupported", "not_found"} then Some(Missing)
    else if name == "contradicted" then Some(Contradicted)
    else None
  }

  function StatusOf(raw: RawResult): Option<Status> {
    if raw.status == None then None else StatusNamed(raw.status.value)
  }

  predicate Known(chunks: seq<RetrievedChunk>, id: int) {
    exists k :: 0 <= k < |chunks| && chunks[k].chunkId == id
  }

  predicate Planned(goals: seq<Goal>, id: string) {
    exists k :: 0 <= k < |goals| && goals[k].id == id
  }

  /** The dictionary of the chunks by id: the last chunk with an id counts. */
  function ChunkFor(chunks: seq<RetrievedChunk>, id: int): (c: RetrievedChunk)
    requires Known(chunks, id)
    ensures c in chunks && c.chunkId == id
  {
    var last := chunks[|chunks| - 1];
    if last.chunkId == id then last else ChunkFor(chunks[..|chunks| - 1], id)
  }

  function GoalFor(goals: seq<Goal>, id: string): (g: Goal)
    requires Planned(goals, id)
    ensures g in goals && g.id == id
  {
    var last := goals[|goals| - 1];
    if last.id == id then last else GoalFor(goals[..|goals| - 1], id)
  }

  /** An element that the strict parser takes: a planned goal, integer ids of supplied chunks, a known status,
      and evidence exactly where the status needs it. */
  predicate ResultOk(raw: RawResult, goals: seq<Goal>, chunks: seq<RetrievedChunk>) {
    && Planned(goals, raw.goalId) && raw.chunkIds.Some? && raw.retryQueries.Some?
    && (forall k :: 0 <= k < |raw.chunkIds.value| ==>
          raw.chunkIds.value[k].Some? && Known(chunks, raw.chunkIds.value[k].value))
    && StatusOf(raw).Some? && (StatusOf(raw).value == Missing <==> raw.chunkIds.value == [])
  }

  function Cited(ids: seq<Option<int>>): seq<int>
    requires forall k :: 0 <= k < |ids| ==> ids[k].Some?
  {
    if ids == [] then []
    else
      var before, last := Cited(ids[..|ids| - 1]), ids[|ids| - 1].value;
      if last in before then before else before + [last]
  }

  ghost predicate Listed(ids: seq<Option<int>>, id: int) {
    exists i :: 0 <= i < |ids| && ids[i] == Some(id)
  }

  lemma {:induction false} CitedOnlyWhatIsListed(ids: seq<Option<int>>)
    requires forall k :: 0 <= k < |ids| ==> ids[k].Some?
    ensures forall k :: 0 <= k < |Cited(ids)| ==> Listed(ids, Cited(ids)[k])
    ensures NoDuplicates(Cited(ids))
    ensures ids != [] ==> Cited(ids) != []
    decreases |ids|
  {
    if ids != [] {
      var rest, n := ids[..|ids| - 1], |ids| - 1;
      CitedOnlyWhatIsListed(rest);
      forall k | 0 <= k < |Cited(ids)| ensures Listed(ids, Cited(ids)[k]) {
        if k < |Cited(rest)| {
          assert Listed(rest, Cited(rest)[k]);
          var i :| 0 <= i < |rest| && rest[i] == Some(Cited(rest)[k]);
          assert ids[i] == Some(Cited(ids)[k]);
        } else {
          assert ids[n] == Some(Cited(ids)[k]);
        }
      }
    }
  }

  function ReferenceTo(c: RetrievedChunk): Reference {
    Reference(c.chunkId, c.documentTitle, c.pageStart, c.pageEnd)
  }

  ghost predicate AllKnown(chunks: seq<RetrievedChunk>, ids: seq<int>) {
    forall k :: 0 <= k < |ids| ==> Known(chunks, ids[k])
  }

  function References(ids: seq<int>, chunks: seq<RetrievedChunk>): seq<Reference>
    requires AllKnown(chunks, ids)
  {
    seq(|ids|, k requires 0 <= k < |ids| => ReferenceTo(ChunkFor(chunks, ids[k])))
  }

  lemma CitedIsKnown(raw: RawResult, goals: seq<Goal>, chunks: seq<RetrievedChunk>)
    requires ResultOk(raw, goals, chunks)
    ensures AllKnown(chunks, Cited(raw.chunkIds.value))
  {
    var ids := Cited(raw.chunkIds.value);
    CitedOnlyWhatIsListed(raw.chunkIds.value);
    forall k | 0 <= k < |ids| ensures Known(chunks, ids[k]) { assert Listed(raw.chunkIds.value, ids[k]); }
  }

  function CoverageOf(raw: RawResult, goals: seq<Goal>, chunks: seq<RetrievedChunk>): GoalCoverage
    requires ResultOk(raw, goals, chunks)
  {
    CitedIsKnown(raw, goals, chunks);
    GoalCoverage(raw.goalId, GoalFor(goals, raw.goalId).description, StatusOf(raw).value,
                 References(Cited(raw.chunkIds.value), chunks), raw.retryQueries.value)
  }

  ghost predicate Answered(results: seq<RawResult>, n: nat, id: string)
    requires n <= |results|
  {
    exists k :: 0 <= k < n && results[k].goalId == id
  }

  /** Every planned goal is answered, exactly once and by nothing else, and every answer is taken. */
  ghost predicate AnswerOk(results: seq<RawResult>, goals: seq<Goal>, chunks: seq<RetrievedChunk>) {
    && |results| == |goals|
    && (forall k :: 0 <= k < |results| ==> ResultOk(results[k], goals, chunks))
    && (forall j, k :: 0 <= j < k < |results| ==> results[j].goalId != results[k].goalId)
    && (forall g :: 0 <= g < |goals| ==> Answered(results, |results|, goals[g].id))
  }

  /** The parsed coverage of the goals, in the order of the plan. */
  ghost predicate Parsed(results: seq<RawResult>, goals: seq<Goal>, chunks: seq<RetrievedChunk>,
                         coverage: seq<GoalCoverage>)
  {
    && AnswerOk(results, goals, chunks)
    && |coverage| == |goals|
    && (forall g :: 0 <= g < |goals| ==> coverage[g].goalId == goals[g].id)
    && (forall g, k :: 0 <= g < |goals| && 0 <= k < |results| && results[k].goalId == goals[g].id ==>
          coverage[g] == CoverageOf(results[k], goals, chunks))
  }

  ghost predicate Gathered(results: seq<RawResult>, n: nat, goals: seq<Goal>, chunks: seq<RetrievedChunk>,
                           parsed: map<string, GoalCoverage>)
    requires n <= |results|
  {
    && (forall k :: 0 <= k < n ==> ResultOk(results[k], goals, chunks))
    && (forall j, k :: 0 <= j < k < n ==> results[j].goalId != results[k].goalId)
    && (forall k :: 0 <= k < n ==>
          results[k].goalId in parsed && parsed[results[k].goalId] == CoverageOf(results[k], goals, chunks))
    && (forall id :: id in parsed ==> Answered(results, n, id))
  }

  method ParseChunkIds(raw: seq<Option<int>>, chunks: seq<RetrievedChunk>) returns (ids: Option<seq<int>>)
    ensures ids.Some? <==> forall k :: 0 <= k < |raw| ==> raw[k].Some? && Known(chunks, raw[k].value)
    ensures ids.Some? ==> ids.value == Cited(raw)
  {
    var cited := [];
    for k := 0 to |raw|
      invariant forall i :: 0 <= i < k ==> raw[i].Some? && Known(chunks, raw[i].value)
      invariant cited == Cited(raw[..k])
    {
      if raw[k] == None || !Known(chunks, raw[k].value) { return None; }
      assert raw[..k + 1][..k] == raw[..k];
      if raw[k].value !in cited { cited := cited + [raw[k].value]; }
    }
    assert raw[..|raw|] == raw;
    return Some(cited);
  }

  method ParseResult(raw: RawResult, goals: seq<Goal>, chunks: seq<RetrievedChunk>) returns (r: Option<GoalCoverage>)
    requires Planned(goals, raw.goalId)
    ensures r.Some? <==> ResultOk(raw, goals, chunks)
    ensures r.Some? ==> r.value == CoverageOf(raw, goals, chunks)
  {
    if raw.chunkIds == None { return None; }
    var ids := ParseChunkIds(raw.chunkIds.value, chunks);
    if ids == None { return None; }
    CitedOnlyWhatIsListed(raw.chunkIds.value);
    var status := StatusOf(raw);
    if status == None || (status != Some(Missing) && ids.value == []) || (status == Some(Missing) && ids.value != []) {
      return None;
    }
    if raw.retryQueries == None { return None; }
    CitedIsKnown(raw, goals, chunks);
    return Some(GoalCoverage(raw.goalId, GoalFor(goals, raw.goalId).description, status.value,
                             References(ids.value, chunks), raw.retryQueries.value));
  }

  /** The strict parser: it accepts exactly the answers that are in order. */
  method ParseCoverageResponse(results: seq<RawResult>, goals: seq<Goal>, chunks: seq<RetrievedChunk>)
      returns (coverage: Option<seq<GoalCoverage>>)
    ensures coverage.Some? <==> AnswerOk(results, goals, chunks)
    ensures coverage.Some? ==> Parsed(results, goals, chunks, coverage.value)
  {
    SizesAgree(results, goals, chunks);
    if |results| != |goals| { return None; }
    var parsed: map<string, GoalCoverage> := map[];
    assert Gathered(results, 0, goals, chunks, parsed);
    hide Gathered, AnswerOk, Parsed, ResultOk, CoverageOf, Planned;
    for k := 0 to |results|
      invariant Gathered(results, k, goals, chunks, parsed)
    {
      var raw := results[k];
      GatherOne(results, k, goals, chunks, parsed);
      if !Planned(goals, raw.goalId) || raw.goalId in parsed { return None; }
      var r := ParseResult(raw, goals, chunks);
      if r == None { return None; }
      parsed := parsed[raw.goalId := r.value];
    }
    AllGathered(results, goals, chunks, parsed);
    if exists g :: 0 <= g < |goals| && goals[g].id !in parsed { return None; }
    coverage := Some(seq(|goals|, g requires 0 <= g < |goals| => parsed[goals[g].id]));
    ParsedInOrder(results, goals, chunks, parsed, coverage.value);
  }

  lemma SizesAgree(results: seq<RawResult>, goals: seq<Goal>, chunks: seq<RetrievedChunk>)
    ensures AnswerOk(results, goals, chunks) ==> |results| == |goals|
  {}

  lemma GatherOne(results: seq<RawResult>, k: nat, goals: seq<Goal>, chunks: seq<RetrievedChunk>,
                  parsed: map<string, GoalCoverage>)
    requires k < |results| && Gathered(results, k, goals, chunks, parsed)
    ensures !Planned(goals, results[k].goalId) || results[k].goalId in parsed || !ResultOk(results[k], goals, chunks) ==>
              !AnswerOk(results, goals, chunks)
    ensures ResultOk(results[k], goals, chunks) && results[k].goalId !in parsed ==>
              Gathered(results, k + 1, goals, chunks, parsed[results[k].goalId := CoverageOf(results[k], goals, chunks)])
  {
    hide CoverageOf, Known, StatusOf;
    if results[k].goalId in parsed {
      assert Answered(results, k, results[k].goalId);
      var j :| 0 <= j < k && results[j].goalId == results[k].goalId;
      assert !AnswerOk(results, goals, chunks);
    }
  }

  lemma AllGathered(results: seq<RawResult>, goals: seq<Goal>, chunks: seq<RetrievedChunk>,
                    parsed: map<string, GoalCoverage>)
    requires Gathered(results, |results|, goals, chunks, parsed) && |results| == |goals|
    ensures AnswerOk(results, goals, chunks) <==> forall g :: 0 <= g < |goals| ==> goals[g].id in parsed
  {
    hide ResultOk, CoverageOf;
    if forall g :: 0 <= g < |goals| ==> goals[g].id in parsed {
      forall g | 0 <= g < |goals| ensures Answered(results, |results|, goals[g].id) {
        assert goals[g].id in parsed;
      }
    } else {
      var g :| 0 <= g < |goals| && goals[g].id !in parsed;
      forall k | 0 <= k < |results| ensures results[k].goalId != goals[g].id { assert results[k].goalId in parsed; }
    }
  }

  lemma ParsedInOrder(results: seq<RawResult>, goals: seq<Goal>, chunks: seq<RetrievedChunk>,
                      parsed: map<string, GoalCoverage>, coverage: seq<GoalCoverage>)
    requires Gathered(results, |results|, goals, chunks, parsed) && AnswerOk(results, goals, chunks)
    requires |coverage| == |goals|
    requires forall g :: 0 <= g < |goals| ==> goals[g].id in parsed && coverage[g] == parsed[goals[g].id]
    ensures Parsed(results, goals, chunks, coverage)
  {
    hide ResultOk;
    forall g | 0 <= g < |goals| ensures coverage[g].goalId == goals[g].id {
      assert Answered(results, |results|, goals[g].id);
      var k :| 0 <= k < |results| && results[k].goalId == goals[g].id;
    }
  }

  // ---- the retry merge ----

  function Chars(chunks: seq<RetrievedChunk>): nat {
    if chunks == [] then 0 else Chars(chunks[..|chunks| - 1]) + |chunks[|chunks| - 1].content|
  }

  ghost predicate DistinctChunks(chunks: seq<RetrievedChunk>) {
    forall i, j :: 0 <= i < j < |chunks| ==> chunks[i].chunkId != chunks[j].chunkId
  }

  /** Within the caps of the merge; a single chunk may have any length. */
  ghost predicate WithinCaps(chunks: seq<RetrievedChunk>) {
    && DistinctChunks(chunks) && |chunks| <= MAX_RETRY_CONTEXT_CHUNKS
    && (|chunks| > 1 ==> Chars(chunks) <= MAX_RETRY_CONTEXT_CHARS)
  }

  predicate Joins(merged: seq<RetrievedChunk>, c: RetrievedChunk) {
    && !Known(merged, c.chunkId) && |merged| < MAX_RETRY_CONTEXT_CHUNKS
    && (merged != [] ==> Chars(merged) + |c.content| <= MAX_RETRY_CONTEXT_CHARS)
  }

  function Merged(chunks: seq<RetrievedChunk>, n: nat): seq<RetrievedChunk>
    requires n <= |chunks|
  {
    if n == 0 then []
    else
      var before := Merged(chunks, n - 1);
      if Joins(before, chunks[n - 1]) then before + [chunks[n - 1]] else before
  }

  function MergeRetry(original: seq<RetrievedChunk>, supplemental: seq<RetrievedChunk>): seq<RetrievedChunk> {
    Merged(original + supplemental, |original + supplemental|)
  }

  method MergeRetryChunks(original: seq<RetrievedChunk>, supplemental: seq<RetrievedChunk>)
      returns (merged: seq<RetrievedChunk>)
    ensures merged == MergeRetry(original, supplemental)
  {
    var all := original + supplemental;
    var seen: set<int>, used := {}, 0;
    merged := [];
    assert Chars(merged) == 0 && merged == Merged(all, 0);
    hide Merged, Chars;
    var k := 0;
    while k < |all|
      invariant 0 <= k <= |all| && merged == Merged(all, k) && used == Chars(merged)
      invariant forall id :: id in seen <==> Known(merged, id)
    {
      var c := all[k];
      MergedNext(all, k);
      if c.chunkId !in seen {
        if |merged| >= MAX_RETRY_CONTEXT_CHUNKS {
          FullStaysFull(all, k, |all|);
          break;
        }
        if merged == [] || used + |c.content| <= MAX_RETRY_CONTEXT_CHARS {
          Joining(merged, c);
          seen := seen + {c.chunkId};
          merged := merged + [c];
          used := used + |c.content|;
        }
      }
      k := k + 1;
    }
  }

  lemma MergedNext(chunks: seq<RetrievedChunk>, k: nat)
    requires k < |chunks|
    ensures Merged(chunks, k + 1) ==
              if Joins(Merged(chunks, k), chunks[k]) then Merged(chunks, k) + [chunks[k]] else Merged(chunks, k)
  {}

  lemma Joining(merged: seq<RetrievedChunk>, c: RetrievedChunk)
    ensures Chars(merged + [c]) == Chars(merged) + |c.content|
    ensures forall id :: Known(merged + [c], id) <==> Known(merged, id) || id == c.chunkId
  {
    var longer := merged + [c];
    assert longer[..|merged|] == merged;
    hide Chars;
    forall id ensures Known(longer, id) <==> Known(merged, id) || id == c.chunkId {
      if id == c.chunkId { assert longer[|merged|].chunkId == id; }
      if Known(merged, id) {
        var k :| 0 <= k < |merged| && merged[k].chunkId == id;
        assert longer[k].chunkId == id;
      }
    }
  }

  lemma {:induction false} FullStaysFull(chunks: seq<RetrievedChunk>, k: nat, n: nat)
    requires k <= n <= |chunks| && |Merged(chunks, k)| >= MAX_RETRY_CONTEXT_CHUNKS
    ensures Merged(chunks, n) == Merged(chunks, k)
    decreases n
  {
    if k < n { FullStaysFull(chunks, k, n - 1); }
  }

  /** The merge repeats no chunk and respects both caps. */
  lemma {:induction false} MergeStaysWithinCaps(chunks: seq<RetrievedChunk>, n: nat)
    requires n <= |chunks|
    ensures WithinCaps(Merged(chunks, n))
  {
    hide Merged, Joins, WithinCaps;
    if n == 0 {
      NothingMerged(chunks);
    } else {
      MergeStaysWithinCaps(chunks, n - 1);
      MergedNext(chunks, n - 1);
      if Joins(Merged(chunks, n - 1), chunks[n - 1]) { JoinKeepsCaps(Merged(chunks, n - 1), chunks[n - 1]); }
    }
  }

  lemma NothingMerged(chunks: seq<RetrievedChunk>)
    ensures Merged(chunks, 0) == [] && WithinCaps([])
  {}

  lemma JoinKeepsCaps(before: seq<RetrievedChunk>, c: RetrievedChunk)
    requires WithinCaps(before) && Joins(before, c)
    ensures WithinCaps(before + [c])
  {
    Joining(before, c);
    hide Chars;
    forall i | 0 <= i < |before| ensures before[i].chunkId != c.chunkId { assert !Known(before, c.chunkId); }
    hide Known;
  }

  lemma {:induction false} MergeGrows(chunks: seq<RetrievedChunk>, k: nat, n: nat)
    requires k <= n <= |chunks|
    ensures Merged(chunks, k) <= Merged(chunks, n)
    decreases n
  {
    if k < n {
      MergeGrows(chunks, k, n - 1);
      MergedNext(chunks, n - 1);
    }
    hide Merged;
  }

  lemma {:induction false} PrefixWithinCaps(chunks: seq<RetrievedChunk>, n: nat)
    requires n <= |chunks| && WithinCaps(chunks)
    ensures WithinCaps(chunks[..n]) && Chars(chunks[..n]) <= Chars(chunks)
    decreases |chunks|
  {
    if n < |chunks| {
      var rest := chunks[..|chunks| - 1];
      assert Chars(rest) <= Chars(chunks);
      assert DistinctChunks(rest);
      PrefixWithinCaps(rest, n);
      assert rest[..n] == chunks[..n];
    } else {
      assert chunks[..n] == chunks;
    }
  }

  lemma {:induction false} WithinCapsMergesWhole(chunks: seq<RetrievedChunk>, n: nat)
    requires n <= |chunks| && WithinCaps(chunks[..n])
    ensures Merged(chunks, n) == chunks[..n]
  {
    hide Merged, WithinCaps, Joins;
    if n == 0 {
      NothingMerged(chunks);
    } else {
      var before := chunks[..n - 1];
      assert chunks[..n][..n - 1] == before && chunks[..n] == before + [chunks[n - 1]];
      PrefixWithinCaps(chunks[..n], n - 1);
      WithinCapsMergesWhole(chunks, n - 1);
      MergedNext(chunks, n - 1);
      WithinCapsJoins(before, chunks[n - 1]);
    }
  }

  lemma WithinCapsJoins(before: seq<RetrievedChunk>, c: RetrievedChunk)
    requires WithinCaps(before + [c])
    ensures Joins(before, c)
  {
    Joining(before, c);
    hide Chars;
    var longer := before + [c];
    forall k | 0 <= k < |before| ensures before[k].chunkId != c.chunkId {
      assert longer[k] == before[k] && longer[|before|] == c;
    }
  }

  /** A retry keeps the whole list that was there, in front, exactly when that list is within the caps. */
  lemma RetryKeepsTheOriginalExactlyWithinCaps(original: seq<RetrievedChunk>, supplemental: seq<RetrievedChunk>)
    ensures original <= MergeRetry(original, supplemental) <==> WithinCaps(original)
    ensures WithinCaps(MergeRetry(original, supplemental))
  {
    var all := original + supplemental;
    assert all[..|original|] == original;
    MergeStaysWithinCaps(all, |all|);
    if WithinCaps(original) {
      WithinCapsMergesWhole(all, |original|);
      MergeGrows(all, |original|, |all|);
    }
    if original <= MergeRetry(original, supplemental) {
      var merged := MergeRetry(original, supplemental);
      PrefixWithinCaps(merged, |original|);
      assert merged[..|original|] == original;
    }
  }

  // ---- assessing, and the log of the assessments ----

  type Assessment = Option<seq<GoalCoverage>>

  /** What a reply and, if it is not in order, the reply to the repair request are taken for. Without goals or
      chunks the model is not asked; an exception counts as no assessment. */
  ghost predicate Assessed(goals: seq<Goal>, chunks: seq<RetrievedChunk>, reply: Reply, repaired: Reply, a: Assessment) {
    if goals == [] || chunks == [] || reply == Failed then a == None
    else if reply.Results? && AnswerOk(reply.results, goals, chunks) then
      a.Some? && Parsed(reply.results, goals, chunks, a.value)
    else if repaired.Results? && AnswerOk(repaired.results, goals, chunks) then
      a.Some? && Parsed(repaired.results, goals, chunks, a.value)
    else a == None
  }

  method AssessEvidenceCoverage(goals: seq<Goal>, chunks: seq<RetrievedChunk>, reply: Reply, repaired: Reply)
      returns (a: Assessment)
    ensures Assessed(goals, chunks, reply, repaired, a)
  {
    hide AnswerOk, Parsed;
    if goals == [] || chunks == [] || reply == Failed { return None; }
    a := None;
    if reply.Results? { a := ParseCoverageResponse(reply.results, goals, chunks); }
    if a == None && repaired.Results? { a := ParseCoverageResponse(repaired.results, goals, chunks); }
  }

  datatype Event = Event(attempt: nat, goals: seq<GoalCoverage>)

  function UncheckedGoals(goals: seq<Goal>): seq<GoalCoverage> {
    seq(|goals|, g requires 0 <= g < |goals| => GoalCoverage(goals[g].id, goals[g].description, Unchecked, [], []))
  }

  function EventOf(attempt: nat, goals: seq<Goal>, a: Assessment): Event {
    Event(attempt, if a == None then UncheckedGoals(goals) else a.value)
  }

  class RetrievalTrace {
    var coverageEvents: seq<Event>

    constructor ()
      ensures coverageEvents == []
    {
      coverageEvents := [];
    }

    method RecordAssessment(attempt: nat, goals: seq<Goal>, a: Assessment)
      modifies this
      ensures coverageEvents == old(coverageEvents) + [EventOf(attempt, goals, a)]
    {
      coverageEvents := coverageEvents + [EventOf(attempt, goals, a)];
    }
  }

  // ---- the bounded retries ----

  /** The goals that are not supported, searched again with the queries the model suggested, if any. */
  function RetryGoals(goals: seq<Goal>, assessment: seq<GoalCoverage>): seq<Goal> {
    if assessment == [] then []
    else
      var last := assessment[|assessment| - 1];
      var before := RetryGoals(goals, assessment[..|assessment| - 1]);
      if last.status == Supported || !Planned(goals, last.goalId) then before
      else
        var goal := GoalFor(goals, last.goalId);
        before + [goal.(queries := if last.retryQueries != [] then last.retryQueries else goal.queries)]
  }

  lemma {:induction false} SomethingIsRetried(goals: seq<Goal>, assessment: seq<GoalCoverage>, k: nat)
    requires k < |assessment| && assessment[k].status != Supported && Planned(goals, assessment[k].goalId)
    ensures RetryGoals(goals, assessment) != []
    decreases |assessment|
  {
    if k < |assessment| - 1 { SomethingIsRetried(goals, assessment[..|assessment| - 1], k); }
  }

  /** What the searches find and what the model replies, by the number of retrieval actions spent. */
  datatype Script = Script(
    fallback: seq<RetrievedChunk>,
    search: (nat, seq<Goal>) -> seq<RetrievedChunk>,
    reply: nat -> Reply,
    repaired: nat -> Reply)

  /** One assessment: the chunks it was about, the actions spent by then, and its result. */
  datatype Round = Round(actions: nat, chunks: seq<RetrievedChunk>, result: Assessment)

  /** Without chunks and without an assessment every goal counts as missing. */
  function AllMissing(goals: seq<Goal>): seq<GoalCoverage> {
    seq(|goals|, g requires 0 <= g < |goals| => GoalCoverage(goals[g].id, goals[g].description, Missing, [], []))
  }

  /** The search stops after a round that is sufficient, that could not be assessed, or that spent the budget;
      only an empty list that could not be assessed first is searched for once more. */
  predicate Stops(round: Round, first: bool) {
    || round.actions >= MAX_RETRIEVAL_ACTIONS
    || (round.result == None && (!first || round.chunks != []))
    || (round.result.Some? && Sufficient(round.result.value))
  }

  function FirstRound(chunks: seq<RetrievedChunk>, script: Script, result: Assessment): Round {
    if chunks == [] then Round(1, script.fallback, result) else Round(0, chunks, result)
  }

  function ToRetry(goals: seq<Goal>, round: Round): seq<GoalCoverage> {
    if round.result == None then AllMissing(goals) else round.result.value
  }

  function NextRound(goals: seq<Goal>, round: Round, script: Script, result: Assessment): Round {
    var retry := RetryGoals(goals, ToRetry(goals, round));
    Round(round.actions + 1, MergeRetry(round.chunks, script.search(round.actions + 1, retry)), result)
  }

  ghost predicate Judged(goals: seq<Goal>, script: Script, round: Round) {
    Assessed(goals, round.chunks, script.reply(round.actions), script.repaired(round.actions), round.result)
  }

  ghost predicate Follows(goals: seq<Goal>, script: Script, round: Round, next: Round, first: bool) {
    !Stops(round, first) && next == NextRound(goals, round, script, next.result)
  }

  /** A run of the evidence check up to some round. */
  ghost predicate Running(goals: seq<Goal>, chunks: seq<RetrievedChunk>, script: Script, rounds: seq<Round>) {
    && rounds != [] && rounds[0] == FirstRound(chunks, script, rounds[0].result)
    && (forall k :: 0 <= k < |rounds| ==> Judged(goals, script, rounds[k]))
    && (forall k :: 0 < k < |rounds| ==> Follows(goals, script, rounds[k - 1], rounds[k], k == 1))
  }

  ghost predicate Ran(goals: seq<Goal>, chunks: seq<RetrievedChunk>, script: Script, rounds: seq<Round>) {
    Running(goals, chunks, script, rounds) && Stops(rounds[|rounds| - 1], |rounds| == 1)
  }

  function Log(goals: seq<Goal>, rounds: seq<Round>): seq<Event> {
    seq(|rounds|, k requires 0 <= k < |rounds| => EventOf(rounds[k].actions, goals, rounds[k].result))
  }

  method CompleteEvidenceCoverage(goals: seq<Goal>, chunks: seq<RetrievedChunk>, script: Script, trace: RetrievalTrace)
      returns (result: seq<RetrievedChunk>, ghost rounds: seq<Round>)
    modifies trace
    ensures goals == [] ==> result == chunks && trace.coverageEvents == old(trace.coverageEvents)
    ensures goals != [] ==>
      && rounds != [] && Ran(goals, chunks, script, rounds) && result == rounds[|rounds| - 1].chunks
      && trace.coverageEvents == old(trace.coverageEvents) + Log(goals, rounds)
  {
    hide Judged, EventOf, Running, Log, Stops, AllMissing, Sufficient;
    if goals == [] { return chunks, []; }
    var current, actions, a := AssessFirst(goals, chunks, script, trace);
    rounds := [Round(actions, current, a)];
    FirstRoundStops(rounds[0]);
    if if a == None then current != [] || actions >= MAX_RETRIEVAL_ACTIONS else Sufficient(a.value) {
      return current, rounds;
    }
    ghost var first := rounds[0];
    result, rounds := RetryLoop(goals, chunks, script, trace, current, actions,
                                if a == None then AllMissing(goals) else a.value, rounds);
    assert rounds[0] == first;
    LogSplits(goals, rounds);
  }

  method AssessFirst(goals: seq<Goal>, chunks: seq<RetrievedChunk>, script: Script, trace: RetrievalTrace)
      returns (current: seq<RetrievedChunk>, actions: nat, a: Assessment)
    modifies trace
    ensures Running(goals, chunks, script, [Round(actions, current, a)]) && actions <= 1
    ensures trace.coverageEvents == old(trace.coverageEvents) + Log(goals, [Round(actions, current, a)])
  {
    current, actions := chunks, 0;
    if current == [] {
      current := script.fallback;
      actions := actions + 1;
    }
    a := AssessEvidenceCoverage(goals, current, script.reply(actions), script.repaired(actions));
    trace.RecordAssessment(actions, goals, a);
    Begins(goals, chunks, script, Round(actions, current, a));
  }

  lemma FirstRoundStops(round: Round)
    requires round.actions <= 1
    ensures Stops(round, true) <==>
              if round.result == None then round.chunks != [] else Sufficient(round.result.value)
  {}

  lemma LogSplits(goals: seq<Goal>, rounds: seq<Round>)
    requires rounds != []
    ensures Log(goals, rounds) == Log(goals, [rounds[0]]) + Log(goals, rounds[1..])
  {
    hide EventOf;
  }

  method RetryLoop(goals: seq<Goal>, ghost chunks: seq<RetrievedChunk>, script: Script, trace: RetrievalTrace,
                   start: seq<RetrievedChunk>, spent: nat, first: seq<GoalCoverage>, ghost begun: seq<Round>)
      returns (result: seq<RetrievedChunk>, ghost rounds: seq<Round>)
    requires Running(goals, chunks, script, begun) && |begun| == 1 && !Stops(begun[0], true)
    requires begun[0].actions == spent && begun[0].chunks == start && first == ToRetry(goals, begun[0])
    modifies trace
    ensures Ran(goals, chunks, script, rounds) && begun <= rounds && result == rounds[|rounds| - 1].chunks
    ensures trace.coverageEvents == old(trace.coverageEvents) + Log(goals, rounds[1..])
  {
    var current, actions, assessment := start, spent, first;
    rounds := begun;
    hide Judged, Assessed, EventOf, Follows, RetryGoals, MergeRetry;
    while actions < MAX_RETRIEVAL_ACTIONS
      invariant Running(goals, chunks, script, rounds) && begun <= rounds
      invariant trace.coverageEvents == old(trace.coverageEvents) + Log(goals, rounds[1..])
      invariant rounds[|rounds| - 1].actions == actions && rounds[|rounds| - 1].chunks == current
      invariant actions < MAX_RETRIEVAL_ACTIONS ==>
        !Stops(rounds[|rounds| - 1], |rounds| == 1) && assessment == ToRetry(goals, rounds[|rounds| - 1])
    {
      hide Running, Stops, Log;
      var retry := RetryGoals(goals, assessment);
      actions := actions + 1;
      current := MergeRetryChunks(current, script.search(actions, retry));
      var a := AssessEvidenceCoverage(goals, current, script.reply(actions), script.repaired(actions));
      trace.RecordAssessment(actions, goals, a);
      RunsOn(goals, chunks, script, rounds, Round(actions, current, a));
      rounds := rounds + [Round(actions, current, a)];
      if a == None || Sufficient(a.value) {
        LaterRoundStops(rounds[|rounds| - 1]);
        return current, rounds;
      }
      LaterRoundStops(rounds[|rounds| - 1]);
      assessment := a.value;
    }
    return current, rounds;
  }

  lemma Begins(goals: seq<Goal>, chunks: seq<RetrievedChunk>, script: Script, round: Round)
    requires round == FirstRound(chunks, script, round.result)
    requires Assessed(goals, round.chunks, script.reply(round.actions), script.repaired(round.actions), round.result)
    ensures Running(goals, chunks, script, [round])
    ensures Log(goals, [round]) == [EventOf(round.actions, goals, round.result)]
  {
    assert Judged(goals, script, round);
    hide Assessed, EventOf;
  }

  lemma LaterRoundStops(round: Round)
    ensures Stops(round, false) <==>
              round.actions >= MAX_RETRIEVAL_ACTIONS || round.result == None || Sufficient(round.result.value)
  {}

  lemma RunsOn(goals: seq<Goal>, chunks: seq<RetrievedChunk>, script: Script, rounds: seq<Round>, next: Round)
    requires rounds != [] && Running(goals, chunks, script, rounds) && !Stops(rounds[|rounds| - 1], |rounds| == 1)
    requires next == NextRound(goals, rounds[|rounds| - 1], script, next.result)
    requires Assessed(goals, next.chunks, script.reply(next.actions), script.repaired(next.actions), next.result)
    ensures Running(goals, chunks, script, rounds + [next])
    ensures Log(goals, (rounds + [next])[1..]) == Log(goals, rounds[1..]) + [EventOf(next.actions, goals, next.result)]
  {
    hide Assessed, NextRound, Stops, Running, Log, EventOf;
    assert Follows(goals, script, rounds[|rounds| - 1], next, |rounds| == 1) && Judged(goals, script, next);
    hide Follows, Judged;
    RunningAppends(goals, chunks, script, rounds, next);
    LogAppends(goals, rounds[1..], next);
    assert (rounds + [next])[1..] == rounds[1..] + [next];
  }

  lemma RunningAppends(goals: seq<Goal>, chunks: seq<RetrievedChunk>, script: Script, rounds: seq<Round>, next: Round)
    requires rounds != [] && Running(goals, chunks, script, rounds)
    requires Follows(goals, script, rounds[|rounds| - 1], next, |rounds| == 1) && Judged(goals, script, next)
    ensures Running(goals, chunks, script, rounds + [next])
  {
    hide Judged, Follows, FirstRound;
  }

  lemma LogAppends(goals: seq<Goal>, rounds: seq<Round>, next: Round)
    ensures Log(goals, rounds + [next]) == Log(goals, rounds) + [EventOf(next.actions, goals, next.result)]
  {
    hide EventOf;
  }

  // ---- the matrix ----

  datatype MatrixStatus = Complete | SomeEvidence | Insufficient | NothingChecked

  datatype MatrixGoal = MatrixGoal(goalId: string, description: string, status: Status, evidence: seq<Reference>)

  datatype EvidenceMatrix = EvidenceMatrix(status: MatrixStatus, goals: seq<MatrixGoal>)

  /** The goals of the newest event that has any. */
  function Latest(events: seq<Event>): seq<GoalCoverage> {
    if events == [] then []
    else if events[|events| - 1].goals != [] then events[|events| - 1].goals
    else Latest(events[..|events| - 1])
  }

  /** The dictionary of the results by goal: the last one with an id counts. */
  function ResultFor(results: seq<GoalCoverage>, id: string): Option<GoalCoverage> {
    if results == [] then None
    else if results[|results| - 1].goalId == id then Some(results[|results| - 1])
    else ResultFor(results[..|results| - 1], id)
  }

  function MatrixGoalFor(results: seq<GoalCoverage>, goal: Goal): MatrixGoal {
    match ResultFor(results, goal.id)
    case None => MatrixGoal(goal.id, goal.description, Unchecked, [])
    case Some(r) => MatrixGoal(goal.id, goal.description, r.status, r.evidence)
  }

  function StatusOfMatrix(statuses: set<Status>): MatrixStatus {
    if statuses == {Supported} then Complete
    else if Supported in statuses || Partial in statuses then SomeEvidence
    else if statuses == {Unchecked} then NothingChecked
    else Insufficient
  }

  /** A reference without page numbers cannot be put into the matrix: the conversion to int raises. */
  predicate Paged(evidence: seq<Reference>) {
    forall k :: 0 <= k < |evidence| ==> evidence[k].pageStart.Some? && evidence[k].pageEnd.Some?
  }

  ghost predicate IsMatrix(m: Option<EvidenceMatrix>, goals: seq<Goal>, results: seq<GoalCoverage>) {
    if goals == [] then m == Some(EvidenceMatrix(NothingChecked, []))
    else if forall g :: 0 <= g < |goals| ==> Paged(MatrixGoalFor(results, goals[g]).evidence) then
      && m.Some? && |m.value.goals| == |goals|
      && (forall g :: 0 <= g < |goals| ==> m.value.goals[g] == MatrixGoalFor(results, goals[g]))
      && m.value.status == StatusOfMatrix(set g | 0 <= g < |goals| :: MatrixGoalFor(results, goals[g]).status)
    else m == None
  }

  method BuildEvidenceMatrix(goals: seq<Goal>, trace: RetrievalTrace) returns (m: Option<EvidenceMatrix>)
    ensures IsMatrix(m, goals, Latest(trace.coverageEvents))
  {
    if goals == [] { return Some(EvidenceMatrix(NothingChecked, [])); }
    var results := Latest(trace.coverageEvents);
    var matrixGoals: seq<MatrixGoal>, statuses: set<Status> := [], {};
    for g := 0 to |goals|
      invariant |matrixGoals| == g && forall k :: 0 <= k < g ==> matrixGoals[k] == MatrixGoalFor(results, goals[k])
      invariant forall k :: 0 <= k < g ==> Paged(MatrixGoalFor(results, goals[k]).evidence)
      invariant statuses == set k | 0 <= k < g :: MatrixGoalFor(results, goals[k]).status
    {
      var goal := MatrixGoalFor(results, goals[g]);
      if !Paged(goal.evidence) { return None; }
      matrixGoals := matrixGoals + [goal];
      statuses := statuses + {goal.status};
    }
    return Some(EvidenceMatrix(StatusOfMatrix(statuses), matrixGoals));
  }

  // ---- what the check and the matrix promise together ----

  lemma {:induction false} LatestIsTheLastRound(earlier: seq<Event>, goals: seq<Goal>, rounds: seq<Round>)
    requires goals != [] && rounds != []
    requires forall k :: 0 <= k < |rounds| ==> rounds[k].result.Some? ==> rounds[k].result.value != []
    ensures Latest(earlier + Log(goals, rounds)) ==
              EventOf(rounds[|rounds| - 1].actions, goals, rounds[|rounds| - 1].result).goals
  {
    var events, last := earlier + Log(goals, rounds), rounds[|rounds| - 1];
    assert events[|events| - 1] == EventOf(last.actions, goals, last.result);
  }

  /** At most two retrieval actions, so at most three assessments, whatever is found and replied. */
  lemma {:induction false} AtMostTwoActions(goals: seq<Goal>, chunks: seq<RetrievedChunk>, script: Script,
                                            rounds: seq<Round>, k: nat)
    requires Running(goals, chunks, script, rounds) && k < |rounds|
    ensures k <= rounds[k].actions <= MAX_RETRIEVAL_ACTIONS
    ensures rounds[k].actions == rounds[0].actions + k
  {
    hide Judged, Assessed, Sufficient, RetryGoals, MergeRetry;
    if k > 0 {
      AtMostTwoActions(goals, chunks, script, rounds, k - 1);
      assert Follows(goals, script, rounds[k - 1], rounds[k], k == 1);
    }
  }

  /** An initial list within the caps is never cut: every later list starts with it. */
  lemma {:induction false} InitialChunksStayInFront(goals: seq<Goal>, chunks: seq<RetrievedChunk>, script: Script,
                                                    rounds: seq<Round>, k: nat)
    requires Running(goals, chunks, script, rounds) && k < |rounds| && WithinCaps(chunks)
    ensures chunks <= rounds[k].chunks && (k > 0 ==> WithinCaps(rounds[k].chunks))
  {
    hide Judged, Assessed, Sufficient, RetryGoals, MergeRetry, WithinCaps, Stops;
    if k > 0 {
      InitialChunksStayInFront(goals, chunks, script, rounds, k - 1);
      assert Follows(goals, script, rounds[k - 1], rounds[k], k == 1);
      var supplemental := script.search(rounds[k].actions, RetryGoals(goals, ToRetry(goals, rounds[k - 1])));
      assert rounds[k].chunks == MergeRetry(rounds[k - 1].chunks, supplemental);
      RetryKeepsTheOriginalExactlyWithinCaps(rounds[k - 1].chunks, supplemental);
    }
  }

  /** An assessment in the order of the plan, whose evidence names supplied chunks and is there exactly where
      the status is not "missing". */
  ghost predicate Grounded(coverage: seq<GoalCoverage>, goals: seq<Goal>, chunks: seq<RetrievedChunk>) {
    && |coverage| == |goals|
    && (forall g :: 0 <= g < |goals| ==> coverage[g].goalId == goals[g].id)
    && (forall g, h :: 0 <= g < |goals| && 0 <= h < |goals| && coverage[g].goalId == coverage[h].goalId ==>
          coverage[g] == coverage[h])
    && (forall g :: 0 <= g < |goals| ==> GroundedGoal(coverage[g], chunks))
  }

  ghost predicate GroundedGoal(c: GoalCoverage, chunks: seq<RetrievedChunk>) {
    && FromChunks(c.evidence, chunks)
    && c.status != Unchecked && (c.status == Missing <==> c.evidence == [])
  }

  ghost predicate FromChunks(evidence: seq<Reference>, chunks: seq<RetrievedChunk>) {
    forall k :: 0 <= k < |evidence| ==> RefersTo(evidence[k], chunks)
  }

  ghost predicate RefersTo(reference: Reference, chunks: seq<RetrievedChunk>) {
    exists c :: c in chunks && ReferenceTo(c) == reference
  }

  lemma CoverageIsGrounded(raw: RawResult, goals: seq<Goal>, chunks: seq<RetrievedChunk>)
    requires ResultOk(raw, goals, chunks)
    ensures GroundedGoal(CoverageOf(raw, goals, chunks), chunks)
  {
    CitedIsKnown(raw, goals, chunks);
    var ids := Cited(raw.chunkIds.value);
    CitedOnlyWhatIsListed(raw.chunkIds.value);
    var evidence := CoverageOf(raw, goals, chunks).evidence;
    forall k | 0 <= k < |evidence| ensures RefersTo(evidence[k], chunks) {
      assert Known(chunks, ids[k]);
      var c := ChunkFor(chunks, ids[k]);
      assert c in chunks && ReferenceTo(c) == evidence[k];
    }
  }

  lemma ParsedIsGrounded(results: seq<RawResult>, goals: seq<Goal>, chunks: seq<RetrievedChunk>, coverage: seq<GoalCoverage>)
    requires Parsed(results, goals, chunks, coverage)
    ensures Grounded(coverage, goals, chunks)
  {
    forall g | 0 <= g < |goals|
      ensures GroundedGoal(coverage[g], chunks)
      ensures forall h :: 0 <= h < |goals| && coverage[g].goalId == coverage[h].goalId ==> coverage[g] == coverage[h]
    {
      assert Answered(results, |results|, goals[g].id);
      var k :| 0 <= k < |results| && results[k].goalId == goals[g].id;
      assert ResultOk(results[k], goals, chunks);
      CoverageIsGrounded(results[k], goals, chunks);
      hide ResultOk, CoverageOf, GroundedGoal;
    }
  }

  lemma AssessedIsGrounded(goals: seq<Goal>, script: Script, round: Round)
    requires Judged(goals, script, round)
    ensures round.result.Some? ==> goals != [] && Grounded(round.result.value, goals, round.chunks)
  {
    hide AnswerOk, Parsed, Grounded;
    var reply, repaired := script.reply(round.actions), script.repaired(round.actions);
    if round.result.Some? {
      if reply.Results? && AnswerOk(reply.results, goals, round.chunks) {
        ParsedIsGrounded(reply.results, goals, round.chunks, round.result.value);
      } else {
        ParsedIsGrounded(repaired.results, goals, round.chunks, round.result.value);
      }
    }
  }

  lemma {:induction false} ResultForGoal(results: seq<GoalCoverage>, g: nat)
    requires g < |results|
    requires forall h :: 0 <= h < |results| && results[h].goalId == results[g].goalId ==> results[h] == results[g]
    ensures ResultFor(results, results[g].goalId) == Some(results[g])
    decreases |results|
  {
    if results[|results| - 1].goalId != results[g].goalId { ResultForGoal(results[..|results| - 1], g); }
  }

  /** Whether the log held older assessments makes no difference, and every reference, status and page of the
      matrix is that of the last one, which was about exactly the chunks that are returned. */
  lemma MatrixIsTheLastAssessment(goals: seq<Goal>, chunks: seq<RetrievedChunk>, script: Script, rounds: seq<Round>,
                                  earlier: seq<Event>, m: Option<EvidenceMatrix>)
    requires goals != [] && Running(goals, chunks, script, rounds)
    requires IsMatrix(m, goals, Latest(earlier + Log(goals, rounds)))
    ensures m.Some? ==> MatrixOf(m.value, goals, rounds[|rounds| - 1])
    ensures m == None <==> PageMissing(rounds[|rounds| - 1])
  {
    var last := rounds[|rounds| - 1];
    forall k | 0 <= k < |rounds| ensures rounds[k].result.Some? ==> rounds[k].result.value != [] {
      AssessedIsGrounded(goals, script, rounds[k]);
    }
    LatestIsTheLastRound(earlier, goals, rounds);
    AssessedIsGrounded(goals, script, last);
    hide Running, Latest, Log, Judged, IsMatrix, MatrixOf, Grounded;
    if last.result.Some? {
      MatrixOfAssessment(goals, last, m);
    } else {
      MatrixOfNothing(goals, last, m);
    }
  }

  ghost predicate PageMissing(last: Round) {
    last.result.Some? && exists g :: 0 <= g < |last.result.value| && !Paged(last.result.value[g].evidence)
  }

  ghost predicate MatrixOf(m: EvidenceMatrix, goals: seq<Goal>, last: Round) {
    && |m.goals| == |goals|
    && (forall g :: 0 <= g < |goals| ==>
          && m.goals[g].goalId == goals[g].id
          && FromChunks(m.goals[g].evidence, last.chunks)
          && (m.goals[g].status in {Missing, Unchecked} <==> m.goals[g].evidence == []))
    && (m.status == Complete <==> last.result.Some? && Sufficient(last.result.value))
    && (m.status == NothingChecked <==> last.result == None)
    && (m.status == SomeEvidence <==>
          m.status != Complete && exists g :: 0 <= g < |m.goals| && m.goals[g].status in {Supported, Partial})
    && (last.result.Some? ==> |last.result.value| == |goals| && forall g :: 0 <= g < |goals| ==>
          m.goals[g] == MatrixGoal(goals[g].id, goals[g].description, last.result.value[g].status, last.result.value[g].evidence))
  }

  lemma MatrixOfAssessment(goals: seq<Goal>, last: Round, m: Option<EvidenceMatrix>)
    requires goals != [] && last.result.Some? && Grounded(last.result.value, goals, last.chunks)
    requires IsMatrix(m, goals, last.result.value)
    ensures m.Some? ==> MatrixOf(m.value, goals, last)
    ensures m == None <==> PageMissing(last)
  {
    var results := last.result.value;
    forall g | 0 <= g < |goals|
      ensures MatrixGoalFor(results, goals[g])
              == MatrixGoal(goals[g].id, goals[g].description, results[g].status, results[g].evidence)
      ensures GroundedGoal(results[g], last.chunks)
    {
      ResultForGoal(results, g);
    }
    hide Grounded, FromChunks, Paged, MatrixGoalFor;
    if m.Some? {
      forall g | 0 <= g < |goals|
        ensures m.value.goals[g].status == results[g].status && m.value.goals[g].evidence == results[g].evidence
      {}
      StatusComplete(goals, results, m.value.status);
    }
  }

  lemma StatusComplete(goals: seq<Goal>, results: seq<GoalCoverage>, status: MatrixStatus)
    requires goals != [] && |results| == |goals|
    requires forall g :: 0 <= g < |goals| ==> MatrixGoalFor(results, goals[g]).status == results[g].status != Unchecked
    requires status == StatusOfMatrix(set g | 0 <= g < |goals| :: MatrixGoalFor(results, goals[g]).status)
    ensures status == Complete <==> Sufficient(results)
    ensures status != NothingChecked
    ensures status == SomeEvidence <==>
              status != Complete && exists g :: 0 <= g < |results| && results[g].status in {Supported, Partial}
  {
    hide MatrixGoalFor;
    var statuses := set g | 0 <= g < |goals| :: MatrixGoalFor(results, goals[g]).status;
    assert forall g :: 0 <= g < |goals| ==> results[g].status in statuses;
    if Sufficient(results) { assert results[0].status in statuses; }
  }

  lemma MatrixOfNothing(goals: seq<Goal>, last: Round, m: Option<EvidenceMatrix>)
    requires goals != [] && last.result == None && IsMatrix(m, goals, UncheckedGoals(goals))
    ensures m.Some? && MatrixOf(m.value, goals, last)
  {
    var results := UncheckedGoals(goals);
    forall g | 0 <= g < |goals|
      ensures MatrixGoalFor(results, goals[g]) == MatrixGoal(goals[g].id, goals[g].description, Unchecked, [])
    {
      UncheckedResult(goals, goals[g].id);
    }
    hide UncheckedGoals, MatrixGoalFor;
    var statuses := set g | 0 <= g < |goals| :: MatrixGoalFor(results, goals[g]).status;
    assert MatrixGoalFor(results, goals[0]).status in statuses;
    assert statuses == {Unchecked};
  }

  lemma {:induction false} UncheckedResult(part: seq<Goal>, id: string)
    ensures var r := ResultFor(UncheckedGoals(part), id); r.Some? ==> r.value.status == Unchecked && r.value.evidence == []
    decreases |part|
  {
    if part != [] {
      UncheckedResult(part[..|part| - 1], id);
      assert UncheckedGoals(part)[..|part| - 1] == UncheckedGoals(part[..|part| - 1]);
    }
  }

  /** A round that does not end the run always leaves a goal to search for again. */
  lemma EveryRetryHasAGoal(goals: seq<Goal>, chunks: seq<RetrievedChunk>, script: Script, rounds: seq<Round>, k: nat)
    requires goals != [] && Running(goals, chunks, script, rounds) && 0 < k < |rounds|
    ensures RetryGoals(goals, ToRetry(goals, rounds[k - 1])) != []
  {
    var round := rounds[k - 1];
    assert Follows(goals, script, round, rounds[k], k == 1) && Judged(goals, script, round);
    AssessedIsGrounded(goals, script, round);
    var open := ToRetry(goals, round);
    var g: nat := if round.result == None then 0 else
      assert exists g :: 0 <= g < |open| && open[g].status != Supported;
      var g: nat :| g < |open| && open[g].status != Supported; g;
    assert goals[g].id == open[g].goalId;
    SomethingIsRetried(goals, open, g);
  }

  // ---- what a retry drops ----

  /** Once there is a retry, the initial chunks stay in front if and only if they are within the caps. */
  lemma RetriesKeepTheInitialChunksExactlyWithinCaps(goals: seq<Goal>, chunks: seq<RetrievedChunk>, script: Script,
                                                     rounds: seq<Round>, k: nat)
    requires Running(goals, chunks, script, rounds) && 0 < k < |rounds|
    ensures chunks <= rounds[k].chunks <==> WithinCaps(chunks)
  {
    if WithinCaps(chunks) { InitialChunksStayInFront(goals, chunks, script, rounds, k); }
    assert Follows(goals, script, rounds[k - 1], rounds[k], k == 1);
    var supplemental := script.search(rounds[k].actions, RetryGoals(goals, ToRetry(goals, rounds[k - 1])));
    assert rounds[k].chunks == MergeRetry(rounds[k - 1].chunks, supplemental);
    RetryKeepsTheOriginalExactlyWithinCaps(rounds[k - 1].chunks, supplemental);
    if chunks <= rounds[k].chunks {
      PrefixWithinCaps(rounds[k].chunks, |chunks|);
      assert rounds[k].chunks[..|chunks|] == chunks;
    }
  }

  /** More distinct chunks than the cap: the retry keeps the first sixteen and nothing else, whatever it found. */
  lemma LongListIsCut(chunks: seq<RetrievedChunk>, supplemental: seq<RetrievedChunk>)
    requires |chunks| > MAX_RETRY_CONTEXT_CHUNKS && WithinCaps(chunks[..MAX_RETRY_CONTEXT_CHUNKS])
    ensures MergeRetry(chunks, supplemental) == chunks[..MAX_RETRY_CONTEXT_CHUNKS]
  {
    var all := chunks + supplemental;
    assert all[..MAX_RETRY_CONTEXT_CHUNKS] == chunks[..MAX_RETRY_CONTEXT_CHUNKS];
    WithinCapsMergesWhole(all, MAX_RETRY_CONTEXT_CHUNKS);
    FullStaysFull(all, MAX_RETRY_CONTEXT_CHUNKS, |all|);
  }

  /** What retrieval returns at most under the preset with the smallest chunks: twenty ranked chunks and eight
      neighbours. */
  function FullRetrieval(): seq<RetrievedChunk> {
    seq(28, i => RetrievedChunk(i + 1, 1, "Guide", "x", Some(i + 1), Some(i + 1), "text", ""))
  }

  lemma {:induction false} OneCharacterEach(chunks: seq<RetrievedChunk>)
    requires forall k :: 0 <= k < |chunks| ==> |chunks[k].content| == 1
    ensures Chars(chunks) == |chunks|
    decreases |chunks|
  {
    if chunks != [] { OneCharacterEach(chunks[..|chunks| - 1]); }
  }

  /** A question with one goal that the model finds missing at first, and cannot be asked about again. */
  function OneGoal(): Goal {
    Goal("g1", "What is it?", ["what is it"])
  }

  function MissingAtFirst(): Script {
    Script([], (actions, goals) => [],
           actions => if actions == 0 then Results([RawResult("g1", Some([]), Some("missing"), Some([]))]) else Failed,
           actions => Failed)
  }

  function RetriedOnce(): seq<Round> {
    [Round(0, FullRetrieval(), Some([GoalCoverage("g1", "What is it?", Missing, [], [])])),
     Round(1, FullRetrieval()[..MAX_RETRY_CONTEXT_CHUNKS], None)]
  }

  /** A whole run in which a retry drops twelve retrieved chunks although it finds nothing instead. */
  lemma RetryDropsRetrievedChunks()
    ensures Ran([OneGoal()], FullRetrieval(), MissingAtFirst(), RetriedOnce())
    ensures |FullRetrieval()| == 28 && |RetriedOnce()[1].chunks| == 16
  {
    var goals, chunks, script, rounds := [OneGoal()], FullRetrieval(), MissingAtFirst(), RetriedOnce();
    FirstReplyIsMissing();
    var kept := chunks[..MAX_RETRY_CONTEXT_CHUNKS];
    OneCharacterEach(kept);
    LongListIsCut(chunks, []);
    assert Judged(goals, script, rounds[1]);
    assert script.search(1, RetryGoals(goals, ToRetry(goals, rounds[0]))) == [];
    assert rounds[0].result.value[0].status == Missing;
    assert !Stops(rounds[0], true);
    assert NextRound(goals, rounds[0], script, None) == rounds[1];
    hide Judged, NextRound, Stops;
  }

  lemma FirstReplyIsMissing()
    ensures Judged([OneGoal()], MissingAtFirst(), RetriedOnce()[0])
  {
    var goals, chunks := [OneGoal()], FullRetrieval();
    var results := [RawResult("g1", Some([]), Some("missing"), Some([]))];
    var coverage := [GoalCoverage("g1", "What is it?", Missing, [], [])];
    assert goals[0].id == "g1" && results[0].goalId == "g1";
    assert Planned(goals, "g1");
    assert ResultOk(results[0], goals, chunks);
    assert Answered(results, 1, "g1");
    assert CoverageOf(results[0], goals, chunks) == coverage[0];
    assert Parsed(results, goals, chunks, coverage);
  }

  // ---- the matrix over chunks as the chunker makes them ----

  /** Every chunk carries its page numbers, as those of the chunker do. */
  ghost predicate AllPaged(chunks: seq<RetrievedChunk>) {
    forall k :: 0 <= k < |chunks| ==> chunks[k].pageStart.Some? && chunks[k].pageEnd.Some?
  }

  /** Over such chunks the matrix is always built. */
  lemma MatrixOverPagedChunksIsBuilt(goals: seq<Goal>, chunks: seq<RetrievedChunk>, script: Script, rounds: seq<Round>,
                                     earlier: seq<Event>, m: Option<EvidenceMatrix>)
    requires goals != [] && Running(goals, chunks, script, rounds) && AllPaged(rounds[|rounds| - 1].chunks)
    requires IsMatrix(m, goals, Latest(earlier + Log(goals, rounds)))
    ensures m.Some?
  {
    var last := rounds[|rounds| - 1];
    MatrixIsTheLastAssessment(goals, chunks, script, rounds, earlier, m);
    AssessedIsGrounded(goals, script, last);
    hide Running, IsMatrix, Latest, Log, Judged;
    if last.result.Some? {
      forall g | 0 <= g < |last.result.value| ensures Paged(last.result.value[g].evidence) {
        assert GroundedGoal(last.result.value[g], last.chunks);
        var evidence := last.result.value[g].evidence;
        forall k | 0 <= k < |evidence| ensures evidence[k].pageStart.Some? && evidence[k].pageEnd.Some? {
          assert RefersTo(evidence[k], last.chunks);
        }
      }
    }
  }

  // ---- what a retry adds ----

  /** The merged chunks are those of the list at increasing positions. */
  ghost predicate TakenAt(merged: seq<RetrievedChunk>, chunks: seq<RetrievedChunk>, n: nat, positions: seq<nat>) {
    && |positions| == |merged|
    && (forall k :: 0 <= k < |merged| ==> positions[k] < n <= |chunks| && merged[k] == chunks[positions[k]])
    && (forall j, k :: 0 <= j < k < |merged| ==> positions[j] < positions[k])
  }

  lemma {:induction false} MergedInOrder(chunks: seq<RetrievedChunk>, n: nat) returns (positions: seq<nat>)
    requires n <= |chunks|
    ensures TakenAt(Merged(chunks, n), chunks, n, positions)
  {
    hide Joins, Merged, TakenAt;
    if n == 0 {
      positions := [];
      NothingMerged(chunks);
      assert TakenAt([], chunks, 0, []) by { NothingTaken(chunks); }
    } else {
      positions := MergedInOrder(chunks, n - 1);
      MergedNext(chunks, n - 1);
      TakingGoesOn(Merged(chunks, n - 1), chunks, n, positions);
      if Joins(Merged(chunks, n - 1), chunks[n - 1]) { positions := positions + [n - 1]; }
    }
  }

  lemma NothingTaken(chunks: seq<RetrievedChunk>)
    ensures TakenAt([], chunks, 0, [])
  {}

  lemma TakingGoesOn(merged: seq<RetrievedChunk>, chunks: seq<RetrievedChunk>, n: nat, positions: seq<nat>)
    requires 0 < n <= |chunks| && TakenAt(merged, chunks, n - 1, positions)
    ensures TakenAt(merged, chunks, n, positions)
    ensures TakenAt(merged + [chunks[n - 1]], chunks, n, positions + [n - 1])
  {}

  /** The list is full for a chunk: sixteen chunks, or too many characters with it. */
  ghost predicate FullFor(merged: seq<RetrievedChunk>, c: RetrievedChunk) {
    |merged| == MAX_RETRY_CONTEXT_CHUNKS || (merged != [] && Chars(merged) + |c.content| > MAX_RETRY_CONTEXT_CHARS)
  }

  lemma {:induction false} PassedOverForGood(chunks: seq<RetrievedChunk>, k: nat, n: nat)
    requires k < n <= |chunks|
    ensures !Joins(Merged(chunks, n), chunks[k])
    decreases n
  {
    hide Merged, Chars, Known;
    var before, c := Merged(chunks, n - 1), chunks[n - 1];
    MergedNext(chunks, n - 1);
    if k < n - 1 { PassedOverForGood(chunks, k, n - 1); }
    Joining(before, c);
  }

  /** The merge is a part of both lists together, in their order, and nothing of them is missing that still had
      room; lists that are within the caps together are merged whole. */
  lemma RetryTakesWhatFits(original: seq<RetrievedChunk>, supplemental: seq<RetrievedChunk>) returns (positions: seq<nat>)
    ensures var all, merged := original + supplemental, MergeRetry(original, supplemental);
            && TakenAt(merged, all, |all|, positions)
            && (forall c :: c in original || c in supplemental ==> Known(merged, c.chunkId) || FullFor(merged, c))
            && (WithinCaps(all) ==> merged == all)
  {
    var all, merged := original + supplemental, MergeRetry(original, supplemental);
    positions := MergedInOrder(all, |all|);
    MergeStaysWithinCaps(all, |all|);
    forall c | c in original || c in supplemental ensures Known(merged, c.chunkId) || FullFor(merged, c) {
      assert c in all;
      var k :| 0 <= k < |all| && all[k] == c;
      PassedOverForGood(all, k, |all|);
    }
    assert all[..|all|] == all;
    if WithinCaps(all) { WithinCapsMergesWhole(all, |all|); }
  }

  /** In every run, whatever the search of a round finds is in the chunks of that round, unless they are full for it;
      the search is for the open goals of the round before, with one more action spent. */
  lemma FoundChunksJoinTheRound(goals: seq<Goal>, chunks: seq<RetrievedChunk>, script: Script, rounds: seq<Round>, k: nat,
                                c: RetrievedChunk)
    requires Running(goals, chunks, script, rounds) && 0 < k < |rounds|
    requires c in script.search(rounds[k - 1].actions + 1, RetryGoals(goals, ToRetry(goals, rounds[k - 1])))
    ensures Known(rounds[k].chunks, c.chunkId) || FullFor(rounds[k].chunks, c)
  {
    hide Judged, Stops, Known, FullFor, RetryGoals, ToRetry, MergeRetry;
    RoundMerges(goals, script, rounds[k - 1], rounds[k], k == 1);
    var found := script.search(rounds[k - 1].actions + 1, RetryGoals(goals, ToRetry(goals, rounds[k - 1])));
    var positions := RetryTakesWhatFits(rounds[k - 1].chunks, found);
    assert Known(rounds[k].chunks, c.chunkId) || FullFor(rounds[k].chunks, c);
  }

  lemma RoundMerges(goals: seq<Goal>, script: Script, round: Round, next: Round, first: bool)
    requires Follows(goals, script, round, next, first)
    ensures next.chunks
            == MergeRetry(round.chunks, script.search(round.actions + 1, RetryGoals(goals, ToRetry(goals, round))))
  {}

  /** A retry can add evidence: one chunk and another one found for it. */
  lemma RetryAddsWhatItFinds(first: RetrievedChunk, found: RetrievedChunk)
    requires first.chunkId != found.chunkId && |first.content| + |found.content| <= MAX_RETRY_CONTEXT_CHARS
    ensures MergeRetry([first], [found]) == [first, found]
  {
    var all := [first] + [found];
    assert all == [first, found] && [] + [first] == [first];
    Joining([], first);
    Joining([first], found);
    var positions := RetryTakesWhatFits([first], [found]);
  }

  // ---- what is searched for, judged and logged ----

  /** The retried goals are the open ones of the assessment in its order, as planned, with the model's queries if it
      gave any. */
  ghost predicate OpenGoals(retried: seq<Goal>, goals: seq<Goal>, assessment: seq<GoalCoverage>, open: seq<nat>) {
    && |open| == |retried|
    && (forall i :: 0 <= i < |open| ==>
          && open[i] < |assessment| && assessment[open[i]].status != Supported
          && Planned(goals, assessment[open[i]].goalId)
          && retried[i].id == assessment[open[i]].goalId
          && retried[i].description == GoalFor(goals, retried[i].id).description
          && retried[i].queries == if assessment[open[i]].retryQueries != [] then assessment[open[i]].retryQueries
                                   else GoalFor(goals, retried[i].id).queries)
    && (forall i, j :: 0 <= i < j < |open| ==> open[i] < open[j])
    && (forall k :: 0 <= k < |assessment| && assessment[k].status != Supported && Planned(goals, assessment[k].goalId) ==>
          k in open)
  }

  lemma {:induction false} RetryAsksForTheOpenGoals(goals: seq<Goal>, assessment: seq<GoalCoverage>) returns (open: seq<nat>)
    ensures OpenGoals(RetryGoals(goals, assessment), goals, assessment, open)
    decreases |assessment|
  {
    hide Planned, GoalFor, OpenGoals;
    if assessment == [] {
      open := [];
      NoOpenGoals(goals);
    } else {
      var n := |assessment| - 1;
      open := RetryAsksForTheOpenGoals(goals, assessment[..n]);
      OneMoreOpenGoal(RetryGoals(goals, assessment[..n]), goals, assessment, open);
      if assessment[n].status != Supported && Planned(goals, assessment[n].goalId) { open := open + [n]; }
    }
  }

  lemma NoOpenGoals(goals: seq<Goal>)
    ensures OpenGoals([], goals, [], [])
  {}

  lemma OneMoreOpenGoal(retried: seq<Goal>, goals: seq<Goal>, assessment: seq<GoalCoverage>, open: seq<nat>)
    requires assessment != [] && OpenGoals(retried, goals, assessment[..|assessment| - 1], open)
    ensures var n := |assessment| - 1;
            var last := assessment[n];
            if last.status == Supported || !Planned(goals, last.goalId) then OpenGoals(retried, goals, assessment, open)
            else
              var goal := GoalFor(goals, last.goalId);
              OpenGoals(retried + [goal.(queries := if last.retryQueries != [] then last.retryQueries else goal.queries)],
                        goals, assessment, open + [n])
  {
    hide Planned, GoalFor;
    var n := |assessment| - 1;
    var last := assessment[n];
    assert forall k :: 0 <= k < n ==> assessment[..n][k] == assessment[k];
    if last.status != Supported && Planned(goals, last.goalId) {
      GoalIsPlanned(goals, last.goalId);
      assert (open + [n])[|open|] == n;
      assert forall k :: k in open ==> k in open + [n];
    }
  }

  lemma GoalIsPlanned(goals: seq<Goal>, id: string)
    requires Planned(goals, id)
    ensures GoalFor(goals, id) in goals && GoalFor(goals, id).id == id
  {}

  lemma {:induction false} EveryListedIdIsCited(ids: seq<Option<int>>, i: nat)
    requires (forall k :: 0 <= k < |ids| ==> ids[k].Some?) && i < |ids|
    ensures ids[i].value in Cited(ids)
    decreases |ids|
  {
    if i < |ids| - 1 { EveryListedIdIsCited(ids[..|ids| - 1], i); }
  }

  /** What a judgement of the model is taken for: its goal as planned, its status by name, exactly the chunks it
      cites, each once, and its queries. */
  lemma CoverageSaysWhatTheModelAnswered(raw: RawResult, goals: seq<Goal>, chunks: seq<RetrievedChunk>)
    requires ResultOk(raw, goals, chunks)
    ensures var c := CoverageOf(raw, goals, chunks);
            && c.goalId == raw.goalId && c.retryQueries == raw.retryQueries.value
            && (exists g :: g in goals && g.id == raw.goalId && g.description == c.description)
            && (c.status == Supported <==> raw.status.value in {"supported", "complete", "fully_supported", "sufficient"})
            && (c.status == Partial <==> raw.status.value in {"partial", "partially_supported", "insufficient"})
            && (c.status == Missing <==> raw.status.value in {"missing", "unsupported", "not_found"})
            && (c.status == Contradicted <==> raw.status.value == "contradicted")
            && (forall j, k :: 0 <= j < k < |c.evidence| ==> c.evidence[j].chunkId != c.evidence[k].chunkId)
            && (forall id :: Some(id) in raw.chunkIds.value <==> exists k :: 0 <= k < |c.evidence| && c.evidence[k].chunkId == id)
  {
    CitedIsKnown(raw, goals, chunks);
    CitedOnlyWhatIsListed(raw.chunkIds.value);
    GoalIsPlanned(goals, raw.goalId);
    var ids, c := Cited(raw.chunkIds.value), CoverageOf(raw, goals, chunks);
    assert forall k :: 0 <= k < |ids| ==> c.evidence[k].chunkId == ids[k];
    hide Cited, Known, Planned, GoalFor;
    forall id ensures Some(id) in raw.chunkIds.value <==> exists k :: 0 <= k < |c.evidence| && c.evidence[k].chunkId == id {
      if Some(id) in raw.chunkIds.value {
        var i :| 0 <= i < |raw.chunkIds.value| && raw.chunkIds.value[i] == Some(id);
        EveryListedIdIsCited(raw.chunkIds.value, i);
        var k :| 0 <= k < |ids| && ids[k] == id;
        assert c.evidence[k].chunkId == id;
      }
      if k :| 0 <= k < |c.evidence| && c.evidence[k].chunkId == id {
        assert Listed(raw.chunkIds.value, ids[k]);
      }
    }
  }

  /** A run from its first list to its last: where it starts, that it goes on exactly while the list is insufficient
      and an action is left, or while nothing was found and nothing could be judged, and what the log says. */
  lemma RunsStartGoOnAndAreLogged(goals: seq<Goal>, chunks: seq<RetrievedChunk>, script: Script, rounds: seq<Round>, k: nat)
    requires Ran(goals, chunks, script, rounds) && k < |rounds|
    ensures rounds[0].chunks == (if chunks == [] then script.fallback else chunks)
    ensures rounds[0].actions == (if chunks == [] then 1 else 0)
    ensures k == |rounds| - 1 <==>
              || rounds[k].actions >= 2
              || (match rounds[k].result
                  case Some(assessment) => assessment != [] && forall g :: 0 <= g < |assessment| ==> assessment[g].status == Supported
                  case None => k > 0 || rounds[k].chunks != [])
    ensures |Log(goals, rounds)| == |rounds| && Log(goals, rounds)[k].attempt == rounds[k].actions
    ensures match rounds[k].result
            case Some(assessment) => Log(goals, rounds)[k].goals == assessment
            case None => |Log(goals, rounds)[k].goals| == |goals|
                         && (forall g :: 0 <= g < |goals| ==>
                               Log(goals, rounds)[k].goals[g]
                               == GoalCoverage(goals[g].id, goals[g].description, Unchecked, [], []))
  {
    hide Judged, NextRound;
    if k < |rounds| - 1 { assert Follows(goals, script, rounds[k], rounds[k + 1], k + 1 == 1); }
  }
}
