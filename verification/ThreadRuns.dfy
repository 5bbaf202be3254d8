/**
 The methods of the store are runs of the protocol: an uninterrupted call of the document processor and an
 uninterrupted run of the reindex thread commit exactly the states that their threads step through.
 */
module ThreadRuns {
  import opened Prelude
  import opened Lifecycle
  import opened Protocol
  import opened ProtocolTheorems
  import opened Store

  // ---- running a few steps ----

  lemma TwoSteps(s: System, a: Step, sa: System, b: Step, sb: System)
    requires Apply(s, a) == Some(sa) && Apply(sa, b) == Some(sb)
    ensures Run(s, [a, b]) == Some(sb)
  {
    assert Run(s, []) == Some(s);
    hide Apply;
    RunLast(s, [], a);
    RunLast(s, [a], b);
    hide Run;
    assert [] + [a] == [a] && [a] + [b] == [a, b];
    assert Run(s, [a, b]) == Some(sb);
  }

  lemma ThreeSteps(s: System, a: Step, sa: System, b: Step, sb: System, c: Step, sc: System)
    requires Apply(s, a) == Some(sa) && Apply(sa, b) == Some(sb) && Apply(sb, c) == Some(sc)
    ensures Run(s, [a, b, c]) == Some(sc)
  {
    TwoSteps(s, a, sa, b, sb);
    hide Apply;
    RunLast(s, [a, b], c);
    hide Run;
    assert [a, b] + [c] == [a, b, c];
    assert Run(s, [a, b, c]) == Some(sc);
  }

  // ---- the reindex thread ----

  /** The steps of one round: what happens to the document, and its count. */
  function RoundSteps(db: Db, w: WorkerId, target: PresetKey, id: DocumentId, outcome: Outcome): seq<Step> {
    if id !in db.documents || target !in db.presets then [ReindexerBegin(w), ReindexerCount(w)]
    else if outcome == RaisesFirst then [ReindexerFailDocument(w), ReindexerCount(w)]
    else if outcome == RaisesLater || outcome.count == 0 then [ReindexerBegin(w), ReindexerFailDocument(w), ReindexerCount(w)]
    else [ReindexerBegin(w), ReindexerPublish(w, outcome.count), ReindexerCount(w)]
  }

  /** The system in which thread w of this job stands at this stage with this progress. */
  function At(s: System, w: WorkerId, job: JobId, p: Progress, stage: JobStage): System {
    s.(db := p.db, passes := p.passes, reindexers := s.reindexers[w := JobTask(job, stage)])
  }

  /** Where the steps that deal with the document lead. */
  function AfterDocument(p: Progress, job: JobId, id: DocumentId, outcome: Outcome): Progress
    requires job < |p.db.jobs|
  {
    var j := p.db.jobs[job];
    Progress(Called(p.db, id, j.target, j.targetVersion, j.reindexDocuments, outcome, p.passes),
             p.passes + if Succeeds(p.db, id, j.target, outcome) then 1 else 0)
  }

  lemma CountStep(s: System, w: WorkerId, job: JobId, p: Progress, todo: seq<DocumentId>, outcome: Outcome)
    requires job < |p.db.jobs| && todo != []
    ensures var j := p.db.jobs[job];
            var ok := Succeeds(p.db, todo[0], j.target, outcome);
            Apply(At(s, w, job, AfterDocument(p, job, todo[0], outcome), ToCount(todo, ok)), ReindexerCount(w))
            == Some(At(s, w, job, Round(p, job, todo[0], outcome), NextDocument(todo[1..])))
  {
    var j := p.db.jobs[job];
    var ok := Succeeds(p.db, todo[0], j.target, outcome);
    var before := At(s, w, job, AfterDocument(p, job, todo[0], outcome), ToCount(todo, ok));
    var next := JobTask(job, NextDocument(todo[1..]));
    assert before.db.jobs == p.db.jobs && before.reindexers[w := next] == s.reindexers[w := next];
  }

  /** A document that is gone, or a target preset that is: one step. */
  lemma MissingRound(s: System, w: WorkerId, job: JobId, p: Progress, todo: seq<DocumentId>, outcome: Outcome)
    requires job < |p.db.jobs| && todo != []
    requires todo[0] !in p.db.documents || p.db.jobs[job].target !in p.db.presets
    ensures Apply(At(s, w, job, p, NextDocument(todo)), ReindexerBegin(w))
            == Some(At(s, w, job, AfterDocument(p, job, todo[0], outcome), ToCount(todo, false)))
    ensures !Succeeds(p.db, todo[0], p.db.jobs[job].target, outcome)
  {
    var before := At(s, w, job, p, NextDocument(todo));
    assert before.reindexers[w := JobTask(job, ToCount(todo, false))] == s.reindexers[w := JobTask(job, ToCount(todo, false))];
  }

  lemma RaisedRound(s: System, w: WorkerId, job: JobId, p: Progress, todo: seq<DocumentId>)
    requires job < |p.db.jobs| && todo != []
    requires todo[0] in p.db.documents && p.db.jobs[job].target in p.db.presets
    ensures Apply(At(s, w, job, p, NextDocument(todo)), ReindexerFailDocument(w))
            == Some(At(s, w, job, AfterDocument(p, job, todo[0], RaisesFirst), ToCount(todo, false)))
  {
    var before := At(s, w, job, p, NextDocument(todo));
    assert before.reindexers[w := JobTask(job, ToCount(todo, false))] == s.reindexers[w := JobTask(job, ToCount(todo, false))];
  }

  /** Otherwise the document is begun, and then published or failed. */
  lemma BegunRound(s: System, w: WorkerId, job: JobId, p: Progress, todo: seq<DocumentId>, outcome: Outcome) returns (t: System)
    requires job < |p.db.jobs| && todo != [] && outcome != RaisesFirst
    requires todo[0] in p.db.documents && p.db.jobs[job].target in p.db.presets
    ensures Apply(At(s, w, job, p, NextDocument(todo)), ReindexerBegin(w)) == Some(t)
    ensures var ok := Succeeds(p.db, todo[0], p.db.jobs[job].target, outcome);
            Apply(t, if ok then ReindexerPublish(w, outcome.count) else ReindexerFailDocument(w))
            == Some(At(s, w, job, AfterDocument(p, job, todo[0], outcome), ToCount(todo, ok)))
  {
    var j := p.db.jobs[job];
    var ok := Succeeds(p.db, todo[0], j.target, outcome);
    t := At(s, w, job, p.(db := BeginIndexing(p.db, todo[0], j.reindexDocuments)), InDocument(todo));
    var before := At(s, w, job, p, NextDocument(todo));
    assert before.reindexers[w := JobTask(job, InDocument(todo))] == t.reindexers;
    assert t.reindexers[w := JobTask(job, ToCount(todo, ok))] == s.reindexers[w := JobTask(job, ToCount(todo, ok))];
  }

  lemma RoundIsARun(s: System, w: WorkerId, job: JobId, p: Progress, todo: seq<DocumentId>, outcome: Outcome)
    requires job < |p.db.jobs| && todo != []
    ensures Run(At(s, w, job, p, NextDocument(todo)), RoundSteps(p.db, w, p.db.jobs[job].target, todo[0], outcome))
            == Some(At(s, w, job, Round(p, job, todo[0], outcome), NextDocument(todo[1..])))
  {
    var j := p.db.jobs[job];
    var a, b := At(s, w, job, p, NextDocument(todo)), At(s, w, job, Round(p, job, todo[0], outcome), NextDocument(todo[1..]));
    var ok := Succeeds(p.db, todo[0], j.target, outcome);
    var counted := At(s, w, job, AfterDocument(p, job, todo[0], outcome), ToCount(todo, ok));
    CountStep(s, w, job, p, todo, outcome);
    if todo[0] !in p.db.documents || j.target !in p.db.presets {
      MissingRound(s, w, job, p, todo, outcome);
      hide Apply;
      TwoSteps(a, ReindexerBegin(w), counted, ReindexerCount(w), b);
    } else if outcome == RaisesFirst {
      RaisedRound(s, w, job, p, todo);
      hide Apply;
      TwoSteps(a, ReindexerFailDocument(w), counted, ReindexerCount(w), b);
    } else {
      var t := BegunRound(s, w, job, p, todo, outcome);
      hide Apply;
      ThreeSteps(a, ReindexerBegin(w), t, if ok then ReindexerPublish(w, outcome.count) else ReindexerFailDocument(w),
                 counted, ReindexerCount(w), b);
    }
    hide Run;
  }

  function LoopSteps(p: Progress, w: WorkerId, job: JobId, ids: seq<DocumentId>, outcomes: DocumentId -> Outcome): seq<Step>
    requires job < |p.db.jobs|
  {
    if ids == [] then []
    else
      var before, last := Rounds(p, job, ids[..|ids| - 1], outcomes), ids[|ids| - 1];
      LoopSteps(p, w, job, ids[..|ids| - 1], outcomes)
      + RoundSteps(before.db, w, before.db.jobs[job].target, last, outcomes(last))
  }

  lemma {:induction false} LoopIsARun(s: System, w: WorkerId, job: JobId, p: Progress, ids: seq<DocumentId>, n: nat,
                                      outcomes: DocumentId -> Outcome)
    requires job < |p.db.jobs| && n <= |ids|
    ensures Run(At(s, w, job, p, NextDocument(ids)), LoopSteps(p, w, job, ids[..n], outcomes))
            == Some(At(s, w, job, Rounds(p, job, ids[..n], outcomes), NextDocument(ids[n..])))
  {
    hide Apply, RoundSteps, At, Round;
    if n == 0 {
      assert ids[..0] == [] && ids[0..] == ids;
    } else {
      LoopIsARun(s, w, job, p, ids, n - 1, outcomes);
      var before := Rounds(p, job, ids[..n - 1], outcomes);
      RoundIsARun(s, w, job, before, ids[n - 1..], outcomes(ids[n - 1]));
      assert ids[..n][..n - 1] == ids[..n - 1] && ids[n - 1..][1..] == ids[n..] && ids[n - 1..][0] == ids[n - 1];
      var last := RoundSteps(before.db, w, before.db.jobs[job].target, ids[n - 1], outcomes(ids[n - 1]));
      assert LoopSteps(p, w, job, ids[..n], outcomes) == LoopSteps(p, w, job, ids[..n - 1], outcomes) + last;
      hide LoopSteps, Run;
      RunConcat(At(s, w, job, p, NextDocument(ids)), LoopSteps(p, w, job, ids[..n - 1], outcomes), last);
    }
  }

  function JobSteps(p: Progress, w: WorkerId, job: JobId, order: seq<DocumentId>, outcomes: DocumentId -> Outcome): seq<Step>
    requires job < |p.db.jobs|
  {
    var ids := if p.db.jobs[job].reindexDocuments then order else [];
    var started := p.(db := MarkRunning(p.db, job, |ids|));
    [ReindexerStart(w, order)] + LoopSteps(started, w, job, ids, outcomes) + [ReindexerFinish(w)]
  }

  /** What the reindex method leaves in the store is the database at the end of a protocol run of its thread,
      from any state in which that thread is about to start the pending job. */
  lemma ReindexRunIsAProtocolRun(s: System, w: WorkerId, job: JobId, order: seq<DocumentId>, outcomes: DocumentId -> Outcome)
    requires w in s.reindexers && s.reindexers[w] == JobTask(job, ToStart)
    requires job < |s.db.jobs| && s.db.jobs[job].status == Pending && Lists(order, s.db.documents.Keys)
    ensures var p := Progress(s.db, s.passes);
            var ids := if s.db.jobs[job].reindexDocuments then order else [];
            var q := Finished(p, job, ids, outcomes);
            Run(s, JobSteps(p, w, job, order, outcomes))
            == Some(s.(db := q.db, passes := q.passes, reindexers := s.reindexers - {w}))
  {
    var p := Progress(s.db, s.passes);
    var ids := if s.db.jobs[job].reindexDocuments then order else [];
    var started := p.(db := MarkRunning(p.db, job, |ids|));
    var a := At(s, w, job, started, NextDocument(ids));
    var done := Rounds(started, job, ids, outcomes);
    var b := At(s, w, job, done, NextDocument([]));
    var q := Finished(p, job, ids, outcomes);
    assert Apply(s, ReindexerStart(w, order)) == Some(a);
    assert b.reindexers - {w} == s.reindexers - {w};
    assert Apply(b, ReindexerFinish(w)) == Some(s.(db := q.db, passes := q.passes, reindexers := s.reindexers - {w}));
    assert ids[..|ids|] == ids && ids[|ids|..] == [];
    LoopIsARun(s, w, job, started, ids, |ids|, outcomes);
    assert Run(s, []) == Some(s) && [] + [ReindexerStart(w, order)] == [ReindexerStart(w, order)];
    hide Apply, At, Rounds, LoopSteps;
    RunLast(s, [], ReindexerStart(w, order));
    hide Run;
    RunConcat(s, [ReindexerStart(w, order)], LoopSteps(started, w, job, ids, outcomes));
    RunLast(s, [ReindexerStart(w, order)] + LoopSteps(started, w, job, ids, outcomes), ReindexerFinish(w));
  }

  // ---- the thread of one document ----

  function CallSteps(db: Db, w: WorkerId, id: DocumentId, outcome: Outcome): seq<Step> {
    if id !in db.documents || db.configuration.active !in db.presets then [IndexerBegin(w)]
    else if outcome == RaisesFirst then [IndexerFail(w)]
    else if outcome == RaisesLater || outcome.count == 0 then [IndexerBegin(w), IndexerFail(w)]
    else [IndexerBegin(w), IndexerPublish(w, outcome.count)]
  }

  /** An uninterrupted call for one document is a run of its thread; it takes preset and version from the
      configuration at its start. */
  lemma IndexingCallIsAProtocolRun(s: System, w: WorkerId, id: DocumentId, reset: bool, outcome: Outcome)
    requires w in s.indexers && s.indexers[w] == IndexTask(id, reset, ToBegin)
    ensures var c := s.db.configuration;
            Run(s, CallSteps(s.db, w, id, outcome))
            == Some(s.(db := Called(s.db, id, c.active, c.indexVersion, reset, outcome, s.passes),
                       passes := s.passes + (if Succeeds(s.db, id, c.active, outcome) then 1 else 0),
                       indexers := s.indexers - {w}))
  {
    var c := s.db.configuration;
    var t := s.(db := Called(s.db, id, c.active, c.indexVersion, reset, outcome, s.passes),
                passes := s.passes + (if Succeeds(s.db, id, c.active, outcome) then 1 else 0),
                indexers := s.indexers - {w});
    if id !in s.db.documents || c.active !in s.db.presets || outcome == RaisesFirst {
      var only := CallSteps(s.db, w, id, outcome)[0];
      assert Apply(s, only) == Some(t);
      assert Run(s, []) == Some(s) && [] + [only] == [only];
      hide Apply;
      RunLast(s, [], only);
    } else {
      var a := s.(db := BeginIndexing(s.db, id, reset),
                  indexers := s.indexers[w := IndexTask(id, reset, ToPublish(c.active, c.indexVersion))]);
      assert Apply(s, IndexerBegin(w)) == Some(a);
      assert a.indexers - {w} == s.indexers - {w};
      var last := CallSteps(s.db, w, id, outcome)[1];
      assert Apply(a, last) == Some(t);
      hide Apply;
      TwoSteps(s, IndexerBegin(w), a, last, t);
    }
  }
}
