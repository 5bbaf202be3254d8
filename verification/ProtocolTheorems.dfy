/** The promises of the reindex and document lifecycle protocol, stated over whole runs. */
module ProtocolTheorems {
  import opened Prelude
  import opened Lifecycle
  import opened Protocol
  import opened ProtocolInvariant

  lemma {:induction false} RunKeepsInv(s: System, steps: seq<Step>)
    requires Inv(s) && Run(s, steps).Some?
    ensures Inv(Run(s, steps).value)
    decreases |steps|
  {
    if steps != [] {
      RunKeepsInv(s, steps[..|steps| - 1]);
      StepKeepsInv(Run(s, steps[..|steps| - 1]).value, steps[|steps| - 1]);
    }
  }

  /** In every reachable state the maintenance flag is on exactly while one job is pending or running, there
      is never a second one, and the configuration is waiting for that job's preset and the next version. */
  lemma MaintenanceExactlyWhileOneJobUnfinished(init: System, steps: seq<Step>)
    requires Initial(init) && Run(init, steps).Some?
    ensures var db := Run(init, steps).value.db;
            && (db.configuration.maintenance <==> exists i: JobId :: Unfinished(db, i))
            && (forall i: JobId, j: JobId :: Unfinished(db, i) && Unfinished(db, j) ==> i == j)
            && (forall i: JobId :: Unfinished(db, i) ==>
                  && db.configuration.pending == Some(db.jobs[i].target)
                  && db.jobs[i].targetVersion == db.configuration.indexVersion + 1)
            && (!db.configuration.maintenance ==> db.configuration.pending == None)
  {
    RunKeepsInv(init, steps);
    var db := Run(init, steps).value.db;
    forall i: JobId | Unfinished(db, i) ensures JobOk(db, db.jobs[i]) {}
  }

  /** In every reachable state an indexed document stores the chunks of exactly one complete pass, the one its
      metadata names, and a document that is uploaded or processing stores none. */
  lemma IndexedDocumentsStoreOneCompletePass(init: System, steps: seq<Step>, id: DocumentId)
    requires Initial(init) && Run(init, steps).Some?
    requires id in Run(init, steps).value.db.documents
    ensures var d := Run(init, steps).value.db.documents[id];
            && (d.status == Indexed ==>
                  && d.chunks != []
                  && var pass := d.chunks[0].pass;
                     && |d.chunks| == pass.count
                     && (forall i :: 0 <= i < |d.chunks| ==> d.chunks[i].pass == pass && d.chunks[i].index == i)
                     && d.indexedPreset == Some(pass.preset) && d.indexVersion == Some(pass.version))
            && (d.status == Uploaded || d.status == Processing ==> d.chunks == [])
  {
    RunKeepsInv(init, steps);
    assert DocumentOk(Run(init, steps).value.db, Run(init, steps).value.db.documents[id]);
  }

  /** In every reachable state two indexing threads never share a document, at most one reindex thread exists,
      and the two kinds never run together. */
  lemma WorkersExcludeEachOther(init: System, steps: seq<Step>)
    requires Initial(init) && Run(init, steps).Some?
    ensures var s := Run(init, steps).value;
            && DistinctDocuments(s.indexers)
            && (forall v, w :: v in s.reindexers && w in s.reindexers ==> v == w)
            && (s.indexers == map[] || s.reindexers == map[])
            && (forall w :: w in s.indexers ==>
                  s.indexers[w].document in s.db.documents && Active(s.db.documents[s.indexers[w].document]))
  {
    RunKeepsInv(init, steps);
    var s := Run(init, steps).value;
    forall w | w in s.indexers ensures IndexerOk(s, s.indexers[w]) {}
    forall w | w in s.reindexers ensures ReindexerOk(s.db, s.reindexers[w]) {}
    if !s.db.configuration.maintenance { NoReindexerOutsideMaintenance(s); }
  }

  /** A job that runs to its end: the counters add up, the status tells whether one document failed, every
      document is failed or indexed at exactly the job's preset and version, and the configuration is theirs. */
  lemma FinishedJobLeavesOneIndexVersion(init: System, steps: seq<Step>, w: WorkerId)
    requires Initial(init) && Run(init, steps + [ReindexerFinish(w)]).Some?
    ensures Run(init, steps).Some? && w in Run(init, steps).value.reindexers
    ensures var s := Run(init, steps).value;
            var t := Run(init, steps + [ReindexerFinish(w)]).value;
            var i := s.reindexers[w].job;
            && i < |t.db.jobs|
            && var j := t.db.jobs[i];
               && j.completed + j.failed == j.total
               && j.status == (if j.failed == 0 then Completed else CompletedWithErrors)
               && (forall id :: id in t.db.documents ==> Settled(t.db.documents[id], j.target, j.targetVersion))
               && t.db.configuration == Configuration(j.target, None, j.targetVersion, false)
               && j.targetVersion == s.db.configuration.indexVersion + 1
  {
    RunLast(init, steps, ReindexerFinish(w));
    RunKeepsInv(init, steps);
    hide Run;
    FinishSettles(Run(init, steps).value, w);
  }

  lemma FinishSettles(s: System, w: WorkerId)
    requires Inv(s) && Apply(s, ReindexerFinish(w)).Some?
    ensures w in s.reindexers
    ensures var t := Apply(s, ReindexerFinish(w)).value;
            var i := s.reindexers[w].job;
            && i < |t.db.jobs|
            && var j := t.db.jobs[i];
               && j.completed + j.failed == j.total
               && j.status == (if j.failed == 0 then Completed else CompletedWithErrors)
               && (forall id :: id in t.db.documents ==> Settled(t.db.documents[id], j.target, j.targetVersion))
               && t.db.configuration == Configuration(j.target, None, j.targetVersion, false)
               && j.targetVersion == s.db.configuration.indexVersion + 1
  {
    assert ReindexerOk(s.db, s.reindexers[w]);
    assert JobOk(s.db, s.db.jobs[s.reindexers[w].job]);
  }

  lemma {:induction false} RunConcat(s: System, a: seq<Step>, b: seq<Step>)
    ensures Run(s, a + b) == if Run(s, a) == None then None else Run(Run(s, a).value, b)
    decreases |b|
  {
    if b == [] {
      assert a + b == a;
    } else {
      RunConcat(s, a, b[..|b| - 1]);
      assert (a + b)[..|a + b| - 1] == a + b[..|b| - 1];
    }
  }

  lemma RunLast(s: System, steps: seq<Step>, step: Step)
    ensures Run(s, steps + [step]) == if Run(s, steps) == None then None else Apply(Run(s, steps).value, step)
  {
    assert (steps + [step])[..|steps|] == steps;
  }

  // ---- which searchable documents are up to date ----

  /** Whether a searchable document carries this index version: a query on the document table. */
  ghost predicate HoldsVersion(db: Db, version: nat) {
    exists id :: id in db.documents && db.documents[id].status == Indexed && db.documents[id].indexVersion == Some(version)
  }

  lemma UniformExactly(db: Db)
    requires AtMostOneAhead(db)
    ensures Uniform(db) <==> !HoldsVersion(db, db.configuration.indexVersion + 1)
  {
    if !HoldsVersion(db, db.configuration.indexVersion + 1) {
      forall id | id in db.documents && db.documents[id].status == Indexed ensures UpToDate(db, db.documents[id]) {}
    }
  }

  /** In every reachable state, whatever jobs have ended by exception before: all searchable documents are at the
      index version with the active chunking if and only if none carries the version after it. */
  lemma SearchableDocumentsAreUniformExactly(init: System, steps: seq<Step>, s: System)
    requires Initial(init) && Run(init, steps) == Some(s)
    ensures Uniform(s.db) <==> !HoldsVersion(s.db, s.db.configuration.indexVersion + 1)
  {
    hide Apply, Uniform, HoldsVersion, AtMostOneAhead;
    ReachableIsAtMostOneAhead(init, steps, s);
    UniformExactly(s.db);
  }

  lemma ReachableIsAtMostOneAhead(init: System, steps: seq<Step>, s: System)
    requires Initial(init) && Run(init, steps) == Some(s)
    ensures AtMostOneAhead(s.db)
  {
    FreshIsClean(init);
    RunKeepsInv(init, steps);
  }

  /** A job that ends by exception leaves the searchable documents uniform if and only if none of them carries
      the job's target version when it ends. */
  lemma AbortKeepsUniformExactly(init: System, steps: seq<Step>, w: WorkerId, s: System, t: System)
    requires Initial(init) && Run(init, steps) == Some(s) && Apply(s, ReindexerAbort(w)) == Some(t)
    ensures w in s.reindexers && s.reindexers[w].job < |s.db.jobs| && !t.db.configuration.maintenance
    ensures Uniform(t.db) <==> !HoldsVersion(s.db, s.db.jobs[s.reindexers[w].job].targetVersion)
    ensures JobFailed(s.db, s.reindexers[w].job, t.db)
  {
    RunKeepsInv(init, steps);
    hide Run;
    AbortIsUniformExactly(s, w, t);
  }

  lemma AbortIsUniformExactly(s: System, w: WorkerId, t: System)
    requires Inv(s) && Apply(s, ReindexerAbort(w)) == Some(t)
    ensures w in s.reindexers && s.reindexers[w].job < |s.db.jobs| && !t.db.configuration.maintenance
    ensures Uniform(t.db) <==> !HoldsVersion(s.db, s.db.jobs[s.reindexers[w].job].targetVersion)
    ensures JobFailed(s.db, s.reindexers[w].job, t.db)
  {
    assert ReindexerOk(s.db, s.reindexers[w]);
    assert JobOk(s.db, s.db.jobs[s.reindexers[w].job]);
    assert t.db.documents == s.db.documents && t.db.configuration.indexVersion == s.db.configuration.indexVersion;
    StepKeepsInv(s, ReindexerAbort(w));
    hide Apply, Uniform;
    UniformExactly(t.db);
  }

  /** The step is no exception of a job, or one that comes before anything of the job can be searched. */
  ghost predicate Harmless(s: System, step: Step) {
    step.ReindexerAbort? && step.w in s.reindexers && s.reindexers[step.w].job < |s.db.jobs| ==>
      !HoldsVersion(s.db, s.db.jobs[s.reindexers[step.w].job].targetVersion)
  }

  ghost predicate HarmlessRun(s: System, steps: seq<Step>) {
    forall k :: 0 <= k < |steps| && Run(s, steps[..k]).Some? ==> Harmless(Run(s, steps[..k]).value, steps[k])
  }

  ghost predicate Clean(s: System) {
    !s.db.configuration.maintenance ==> !HoldsVersion(s.db, s.db.configuration.indexVersion + 1)
  }

  lemma {:induction false} HarmlessRunsStayClean(s: System, steps: seq<Step>)
    requires Inv(s) && Clean(s) && Run(s, steps).Some?
    requires HarmlessRun(s, steps)
    ensures Clean(Run(s, steps).value)
    decreases |steps|
  {
    if steps != [] {
      var before, last := steps[..|steps| - 1], steps[|steps| - 1];
      forall k | 0 <= k < |before| && Run(s, before[..k]).Some? ensures Harmless(Run(s, before[..k]).value, before[k]) {
        assert before[..k] == steps[..k];
      }
      HarmlessRunsStayClean(s, before);
      RunKeepsInv(s, before);
      assert Harmless(Run(s, before).value, last);
      StepStaysClean(Run(s, before).value, last);
      hide Apply;
    }
  }

  /** Only threads publish: no other step makes a document searchable or changes the index version. */
  ghost predicate NothingPublished(s: System, t: System) {
    && t.db.configuration.indexVersion == s.db.configuration.indexVersion
    && (s.db.configuration.maintenance ==> t.db.configuration.maintenance)
    && (forall id :: id in t.db.documents && t.db.documents[id].status == Indexed ==>
          id in s.db.documents && t.db.documents[id] == s.db.documents[id])
  }

  lemma RequestsPublishNothing(s: System, step: Step)
    requires Inv(s) && Apply(s, step).Some?
    requires step.ChangePreset? || step.Retry? || step.UploadInsert? || step.UploadAccept? || step.UploadReject? || step.Delete?
    ensures NothingPublished(s, Apply(s, step).value)
  {
    if step.UploadAccept? { assert s.db.documents[step.document].status == Uploaded; }
  }

  lemma RecoveryPublishesNothing(s: System, step: Step)
    requires Inv(s) && (step.Crash? || step.RecoverJobTable? || step.RecoverDocumentTable?) && RecoveryStep(s, step).Some?
    ensures NothingPublished(s, RecoveryStep(s, step).value)
  {
    if s.db.configuration.maintenance { var i: JobId :| Unfinished(s.db, i); }
  }

  lemma PublishingNothingStaysClean(s: System, t: System)
    requires Clean(s) && NothingPublished(s, t)
    ensures Clean(t)
  {}

  lemma IndexerStaysClean(s: System, step: Step)
    requires Inv(s) && Clean(s)
    requires step.IndexerBegin? || step.IndexerPublish? || step.IndexerFail? || step.IndexerDie?
    requires IndexerStep(s, step).Some?
    ensures Clean(IndexerStep(s, step).value)
  {
    OnlyOwnDocument(s, step);
  }

  lemma ReindexerStaysClean(s: System, step: Step, t: System)
    requires Inv(s) && Inv(t) && Harmless(s, step) && IsReindexerStep(step) && ReindexerStep(s, step) == Some(t)
    ensures Clean(t)
  {
    var own := s.reindexers[step.w];
    assert ReindexerOk(s.db, own);
    assert JobOk(s.db, s.db.jobs[own.job]);
    assert step.ReindexerFinish? || step.ReindexerAbort? || t.db.configuration == s.db.configuration;
    assert s.db.configuration.maintenance;
  }

  lemma StepStaysClean(s: System, step: Step)
    requires Inv(s) && Clean(s) && Harmless(s, step) && Apply(s, step).Some?
    ensures Clean(Apply(s, step).value)
  {
    hide Inv, Clean, Harmless, NothingPublished, IndexerStep, ReindexerStep, RecoveryStep, UploadStep, AfterReply;
    var t := Apply(s, step).value;
    StepKeepsInv(s, step);
    if IsReindexerStep(step) {
      ReindexerStaysClean(s, step, t);
    } else if step.IndexerBegin? || step.IndexerPublish? || step.IndexerFail? || step.IndexerDie? {
      IndexerStaysClean(s, step);
    } else if step.Crash? || step.RecoverJobTable? || step.RecoverDocumentTable? {
      RecoveryPublishesNothing(s, step);
      PublishingNothingStaysClean(s, t);
    } else {
      RequestsPublishNothing(s, step);
      PublishingNothingStaysClean(s, t);
    }
  }

  /** After a job ran to its end, and as long as no later job ends by exception after something of it could be
      searched, every searchable document outside maintenance is at the current index version with the active
      preset's chunk size and overlap, whatever uploads, deletions, preset switches, crashes and restarts
      happen in between. */
  lemma SearchableDocumentsStayUniform(init: System, before: seq<Step>, w: WorkerId, s: System, after: seq<Step>, t: System)
    requires Initial(init) && Run(init, before + [ReindexerFinish(w)]) == Some(s) && Run(s, after) == Some(t)
    requires HarmlessRun(s, after)
    ensures !t.db.configuration.maintenance ==> Uniform(t.db)
  {
    RunKeepsInv(init, before + [ReindexerFinish(w)]);
    RunLast(init, before, ReindexerFinish(w));
    RunKeepsInv(init, before);
    FinishCleans(Run(init, before).value, w);
    HarmlessRunsStayClean(s, after);
    RunKeepsInv(s, after);
    CleanIsUniform(t);
  }

  lemma CleanIsUniform(t: System)
    requires Inv(t) && Clean(t)
    ensures !t.db.configuration.maintenance ==> Uniform(t.db)
  {
    UniformExactly(t.db);
  }

  lemma FinishCleans(s: System, w: WorkerId)
    requires Inv(s) && Apply(s, ReindexerFinish(w)).Some?
    ensures Clean(Apply(s, ReindexerFinish(w)).value)
  {
    var t := Apply(s, ReindexerFinish(w)).value;
    StepKeepsInv(s, ReindexerFinish(w));
    ReindexerStaysClean(s, ReindexerFinish(w), t);
  }

  lemma FreshIsClean(init: System)
    requires Initial(init)
    ensures Inv(init) && Clean(init)
  {}

  /** The same from the first start on. */
  lemma SearchableDocumentsUniformFromTheStart(init: System, steps: seq<Step>, t: System)
    requires Initial(init) && Run(init, steps) == Some(t)
    requires HarmlessRun(init, steps)
    ensures !t.db.configuration.maintenance ==> Uniform(t.db)
  {
    FreshIsClean(init);
    HarmlessRunsStayClean(init, steps);
    RunKeepsInv(init, steps);
    CleanIsUniform(t);
  }

  // ---- maintenance can always be left again ----

  lemma {:induction false} Listing(ids: set<DocumentId>) returns (order: seq<DocumentId>)
    ensures Lists(order, ids)
    decreases |ids|
  {
    if id :| id in ids {
      var rest := Listing(ids - {id});
      order := [id] + rest;
      assert forall x :: x in order <==> x == id || x in rest;
    } else {
      order := [];
    }
  }

  /** One document of a reindex job, start to end, as the thread would do it when nothing fails. */
  function IndexOne(w: WorkerId): seq<Step> {
    [ReindexerBegin(w), ReindexerPublish(w, 1), ReindexerCount(w)]
  }

  /** What the three steps keep: the document table's ids and the job's target. */
  ghost predicate SameJob(s: System, t: System, w: WorkerId)
    requires w in s.reindexers
  {
    var job := s.reindexers[w].job;
    && w in t.reindexers && t.reindexers[w].job == job && t.reindexers.Keys == s.reindexers.Keys
    && t.db.documents.Keys == s.db.documents.Keys
    && job < |s.db.jobs| == |t.db.jobs| && t.db.jobs[job].target == s.db.jobs[job].target
  }

  lemma DocumentCanBegin(s: System, w: WorkerId, todo: seq<DocumentId>) returns (t: System)
    requires Inv(s) && w in s.reindexers && s.reindexers[w].stage == NextDocument(todo) && todo != []
    requires todo[0] in s.db.documents
    ensures Apply(s, ReindexerBegin(w)) == Some(t) && SameJob(s, t, w) && t.reindexers[w].stage == InDocument(todo)
  {
    assert ReindexerOk(s.db, s.reindexers[w]);
    assert JobOk(s.db, s.db.jobs[s.reindexers[w].job]);
    t := Apply(s, ReindexerBegin(w)).value;
  }

  lemma DocumentCanPublish(s: System, w: WorkerId, todo: seq<DocumentId>) returns (t: System)
    requires w in s.reindexers && s.reindexers[w].stage == InDocument(todo) && todo != []
    requires todo[0] in s.db.documents && s.reindexers[w].job < |s.db.jobs|
    ensures Apply(s, ReindexerPublish(w, 1)) == Some(t) && SameJob(s, t, w) && t.reindexers[w].stage == ToCount(todo, true)
  {
    t := Apply(s, ReindexerPublish(w, 1)).value;
  }

  lemma DocumentCanBeCounted(s: System, w: WorkerId, todo: seq<DocumentId>) returns (t: System)
    requires w in s.reindexers && s.reindexers[w].stage == ToCount(todo, true) && todo != []
    requires s.reindexers[w].job < |s.db.jobs|
    ensures Apply(s, ReindexerCount(w)) == Some(t) && SameJob(s, t, w) && t.reindexers[w].stage == NextDocument(todo[1..])
  {
    t := Apply(s, ReindexerCount(w)).value;
  }

  lemma OneDocumentCanBeIndexed(s: System, w: WorkerId, todo: seq<DocumentId>)
    requires Inv(s) && w in s.reindexers && s.reindexers[w].stage == NextDocument(todo) && todo != []
    requires todo[0] in s.db.documents
    ensures Run(s, IndexOne(w)).Some?
    ensures var t := Run(s, IndexOne(w)).value; SameJob(s, t, w) && t.reindexers[w].stage == NextDocument(todo[1..])
  {
    var a := DocumentCanBegin(s, w, todo);
    var b := DocumentCanPublish(a, w, todo);
    var c := DocumentCanBeCounted(b, w, todo);
    hide Apply, Inv;
    var steps := IndexOne(w);
    RunLast(s, [], steps[0]);
    RunLast(s, [steps[0]], steps[1]);
    RunLast(s, [steps[0], steps[1]], steps[2]);
    assert Run(s, []) == Some(s);
    hide Run;
    assert [] + [steps[0]] == [steps[0]] && [steps[0]] + [steps[1]] == [steps[0], steps[1]];
    assert [steps[0], steps[1]] + [steps[2]] == steps;
  }

  lemma {:induction false} ThreadCanFinish(s: System, w: WorkerId, todo: seq<DocumentId>) returns (steps: seq<Step>)
    requires Inv(s) && w in s.reindexers && s.reindexers[w].stage == NextDocument(todo)
    requires forall k :: 0 <= k < |todo| ==> todo[k] in s.db.documents
    ensures Run(s, steps).Some?
    ensures var t := Run(s, steps).value;
            && !t.db.configuration.maintenance
            && s.reindexers[w].job < |s.db.jobs|
            && t.db.configuration.active == s.db.jobs[s.reindexers[w].job].target
    decreases |todo|
  {
    assert ReindexerOk(s.db, s.reindexers[w]);
    if todo == [] {
      steps := [ReindexerFinish(w)];
      assert steps[..0] == [] && Run(s, []) == Some(s);
    } else {
      OneDocumentCanBeIndexed(s, w, todo);
      RunKeepsInv(s, IndexOne(w));
      var rest := ThreadCanFinish(Run(s, IndexOne(w)).value, w, todo[1..]);
      steps := IndexOne(w) + rest;
      RunConcat(s, IndexOne(w), rest);
    }
  }

  /** First commit of start-up recovery. */
  lemma RecoveryFindsTheJob(s: System, i: JobId) returns (t: System)
    requires Inv(s) && s.phase == Down && Unfinished(s.db, i)
    ensures Apply(s, RecoverJobTable) == Some(t) && Inv(t)
    ensures t.phase == JobsRecovered(Some(i)) && t.db.configuration.maintenance
    ensures t.db.documents == s.db.documents && i < |s.db.jobs| == |t.db.jobs|
    ensures t.db.jobs[i].target == s.db.jobs[i].target
  {
    RecoveryRestoresJobs(s.db);
    assert i == LastUnfinished(s.db.jobs) by { assert Unfinished(s.db, LastUnfinished(s.db.jobs)); }
    StepKeepsInv(s, RecoverJobTable);
    t := Apply(s, RecoverJobTable).value;
    assert Unfinished(t.db, i);
  }

  /** Second commit: document recovery is left to the job, whose thread starts again. */
  lemma RecoveryResumesTheThread(s: System, i: JobId) returns (t: System)
    requires Inv(s) && s.phase == JobsRecovered(Some(i)) && s.db.configuration.maintenance
    ensures Apply(s, RecoverDocumentTable(map[], 0)) == Some(t) && Inv(t)
    ensures t.db == s.db && t.reindexers == map[0 := JobTask(i, ToStart)]
  {
    assert Apply(s, RecoverDocumentTable(map[], 0)).Some?;
    StepKeepsInv(s, RecoverDocumentTable(map[], 0));
    t := Apply(s, RecoverDocumentTable(map[], 0)).value;
  }

  lemma ThreadStarts(s: System, i: JobId, order: seq<DocumentId>) returns (t: System)
    requires Inv(s) && s.reindexers == map[0 := JobTask(i, ToStart)] && Lists(order, s.db.documents.Keys)
    ensures Apply(s, ReindexerStart(0, order)) == Some(t) && Inv(t)
    ensures t.reindexers == map[0 := JobTask(i, NextDocument(order))] && t.db.documents == s.db.documents
    ensures i < |s.db.jobs| == |t.db.jobs| && t.db.jobs[i].target == s.db.jobs[i].target
  {
    assert ReindexerOk(s.db, s.reindexers[0]);
    assert JobOk(s.db, s.db.jobs[i]);
    t := Apply(s, ReindexerStart(0, order)).value;
    StepKeepsInv(s, ReindexerStart(0, order));
  }

  /** A restart from a state with an unfinished job leads to its thread, started on all documents. */
  lemma RestartStartsTheThread(s: System, i: JobId, order: seq<DocumentId>) returns (steps: seq<Step>)
    requires Inv(s) && Unfinished(s.db, i) && Lists(order, s.db.documents.Keys)
    ensures Run(s, steps).Some? && Inv(Run(s, steps).value)
    ensures var t := Run(s, steps).value;
            && t.reindexers == map[0 := JobTask(i, NextDocument(order))]
            && t.db.documents == s.db.documents
            && i < |t.db.jobs| && t.db.jobs[i].target == s.db.jobs[i].target
  {
    var a := Apply(s, Crash).value;
    StepKeepsInv(s, Crash);
    hide Inv;
    assert Apply(s, Crash) == Some(a);
    hide Apply;
    assert Unfinished(a.db, i);
    var b := RecoveryFindsTheJob(a, i);
    var c := RecoveryResumesTheThread(b, i);
    var d := ThreadStarts(c, i, order);
    steps := [Crash, RecoverJobTable, RecoverDocumentTable(map[], 0), ReindexerStart(0, order)];
    FourSteps(s, steps[0], a, steps[1], b, steps[2], c, steps[3], d);
  }

  lemma FourSteps(s: System, a: Step, sa: System, b: Step, sb: System, c: Step, sc: System, d: Step, sd: System)
    requires Apply(s, a) == Some(sa) && Apply(sa, b) == Some(sb) && Apply(sb, c) == Some(sc) && Apply(sc, d) == Some(sd)
    ensures Run(s, [a, b, c, d]) == Some(sd)
  {
    hide Apply, Run;
    NoSteps(s);
    RunLast(s, [], a);
    RunLast(s, [a], b);
    RunLast(s, [a, b], c);
    RunLast(s, [a, b, c], d);
    assert [] + [a] == [a] && [a] + [b] == [a, b] && [a, b] + [c] == [a, b, c] && [a, b, c] + [d] == [a, b, c, d];
    assert Run(s, [a, b, c, d]) == Some(sd);
  }

  lemma UnfinishedJobCanFinish(s: System, i: JobId) returns (steps: seq<Step>)
    requires Inv(s) && Unfinished(s.db, i)
    ensures Run(s, steps).Some?
    ensures !Run(s, steps).value.db.configuration.maintenance
    ensures Run(s, steps).value.db.configuration.active == s.db.jobs[i].target
  {
    var order := Listing(s.db.documents.Keys);
    var boot := RestartStartsTheThread(s, i, order);
    hide Inv, Apply;
    var rest := ThreadCanFinish(Run(s, boot).value, 0, order);
    steps := boot + rest;
    RunConcat(s, boot, rest);
  }

  /** From every reachable state, also one whose reindex thread is lost while the maintenance flag is on, a
      restart can lead out of maintenance, with the preset of the unfinished job active. */
  lemma RestartCanAlwaysEndMaintenance(init: System, steps: seq<Step>, i: JobId) returns (more: seq<Step>)
    requires Initial(init) && Run(init, steps).Some? && Unfinished(Run(init, steps).value.db, i)
    ensures Run(init, steps + more).Some?
    ensures var before, after := Run(init, steps).value.db, Run(init, steps + more).value.db;
            !after.configuration.maintenance && after.configuration.active == before.jobs[i].target
  {
    RunKeepsInv(init, steps);
    hide Apply, Inv;
    more := UnfinishedJobCanFinish(Run(init, steps).value, i);
    RunConcat(init, steps, more);
  }

  /** A granted preset change or retry, wherever its request ends up: there is always a continuation after which
      its target is the active preset and maintenance is over. */
  lemma GrantedChangeCanTakeEffect(init: System, steps: seq<Step>, target: PresetKey, worker: Option<WorkerId>, t: System)
      returns (more: seq<Step>)
    requires Initial(init) && Run(init, steps + [ChangePreset(target, worker)]) == Some(t)
    requires Run(init, steps).Some? && StartPresetChange(Run(init, steps).value.db, target).Accepted?
    ensures Run(t, more).Some?
    ensures !Run(t, more).value.db.configuration.maintenance && Run(t, more).value.db.configuration.active == target
  {
    RunKeepsInv(init, steps + [ChangePreset(target, worker)]);
    RunLast(init, steps, ChangePreset(target, worker));
    var s := Run(init, steps).value;
    hide Run;
    GrantedChangeOpensIt(s, target, worker, t);
    hide Apply, Inv;
    if t.db.configuration.maintenance {
      more := UnfinishedJobCanFinish(t, |s.db.jobs|);
    } else {
      more := [];
      NoSteps(t);
    }
  }

  lemma NoSteps(t: System)
    ensures Run(t, []) == Some(t)
  {}

  lemma GrantedChangeOpensIt(s: System, target: PresetKey, worker: Option<WorkerId>, t: System)
    requires Apply(s, ChangePreset(target, worker)) == Some(t) && StartPresetChange(s.db, target).Accepted?
    ensures t.db.configuration.maintenance ==> Unfinished(t.db, |s.db.jobs|) && t.db.jobs[|s.db.jobs|].target == target
    ensures !t.db.configuration.maintenance ==> t.db.configuration.active == target
  {
    PresetChangeIsGrantedExactly(s.db, target);
  }
}
