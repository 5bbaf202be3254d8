/**
 What every run of the protocol keeps, whatever the interleaving of requests, indexing threads, the
 reindex thread, worker exceptions, crashes and restarts.
 */
module ProtocolInvariant {
  import opened Prelude
  import opened Lifecycle
  import opened Protocol

  // ---- the invariant ----

  /** The rows are exactly those of one pass, each once and in order: nothing mixed, missing or doubled. */
  ghost predicate OnePass(rows: seq<ChunkRow>) {
    rows != [] && RowsOf(rows, rows[0].pass)
  }

  ghost predicate DocumentOk(db: Db, d: Document) {
    && (d.status == Indexed ==>
          && OnePass(d.chunks)
          && d.indexedPreset == Some(d.chunks[0].pass.preset)
          && d.indexVersion == Some(d.chunks[0].pass.version))
    && (Active(d) ==> d.chunks == [])
    && (d.status == Rejected ==> d.chunks == [] || OnePass(d.chunks))
    && (d.indexedPreset.Some? ==> d.indexedPreset.value in db.presets)
  }

  ghost predicate JobOk(db: Db, j: Job) {
    && j.target in db.presets
    && (UnfinishedJob(j) ==> j.targetVersion == db.configuration.indexVersion + 1 && j.reindexDocuments)
    && (j.status == Pending ==> j.completed == 0 && j.failed == 0)
    && (j.status == Completed ==> j.failed == 0 && j.completed == j.total)
    && (j.status == CompletedWithErrors ==> j.failed > 0 && j.completed + j.failed == j.total)
  }

  ghost predicate TablesOk(db: Db) {
    && JobsConsistent(db)
    && db.configuration.active in db.presets
    && (forall i :: 0 <= i < |db.jobs| ==> JobOk(db, db.jobs[i]))
    && (forall id :: id in db.documents ==> DocumentOk(db, db.documents[id]))
  }

  /** Indexing threads and uploads run outside maintenance only, each alone on a document that is active. */
  ghost predicate IndexersOk(s: System) {
    && DistinctDocuments(s.indexers)
    && (s.db.configuration.maintenance ==> s.indexers == map[] && s.uploads == {})
    && (forall id :: id in s.uploads ==> id in s.db.documents && s.db.documents[id].status == Uploaded)
    && (forall w :: w in s.indexers ==> IndexerOk(s, s.indexers[w]))
  }

  ghost predicate IndexerOk(s: System, t: IndexTask) {
    && t.document in s.db.documents && t.document !in s.uploads
    && match t.stage
       case ToBegin => s.db.documents[t.document].status == Uploaded
       case ToPublish(preset, version) =>
         && s.db.documents[t.document].status == Processing
         && preset == s.db.configuration.active && version == s.db.configuration.indexVersion
  }

  /** What a job leaves behind for a document it is done with. */
  ghost predicate Settled(d: Document, preset: PresetKey, version: nat) {
    d.status == Rejected
    || (d.status == Indexed && d.indexedPreset == Some(preset) && d.indexVersion == Some(version))
  }

  ghost predicate Covered(db: Db, j: Job, todo: seq<DocumentId>) {
    forall id :: id in db.documents && id !in todo ==> Settled(db.documents[id], j.target, j.targetVersion)
  }

  ghost predicate ReindexerOk(db: Db, t: JobTask) {
    && Unfinished(db, t.job)
    && var j := db.jobs[t.job];
       if t.stage == ToStart then j.status == Pending
       else
         && j.status == Running
         && j.completed + j.failed + |t.stage.todo| == j.total
         && match t.stage
            case NextDocument(todo) => Covered(db, j, todo)
            case InDocument(todo) =>
              todo != [] && Covered(db, j, todo)
              && (todo[0] in db.documents ==> db.documents[todo[0]].status == Processing)
            case ToCount(todo, _) => todo != [] && Covered(db, j, todo[1..])
  }

  ghost predicate ReindexersOk(s: System) {
    && (forall v, w :: v in s.reindexers && w in s.reindexers ==> v == w)
    && (forall w :: w in s.reindexers ==> ReindexerOk(s.db, s.reindexers[w]))
  }

  ghost predicate PhaseOk(s: System) {
    && (s.phase != Serving ==> s.indexers == map[] && s.reindexers == map[] && s.uploads == {})
    && match s.phase
       case JobsRecovered(None) => !s.db.configuration.maintenance
       case JobsRecovered(Some(i)) => Unfinished(s.db, i) && s.db.jobs[i].status == Pending
       case _ => true
  }

  ghost predicate SameChunking(db: Db, a: PresetKey, b: PresetKey)
    requires a in db.presets && b in db.presets
  {
    db.presets[a].chunkSize == db.presets[b].chunkSize && db.presets[a].chunkOverlap == db.presets[b].chunkOverlap
  }

  /** The document was indexed at the current index version with the active chunk size and overlap. */
  ghost predicate UpToDate(db: Db, d: Document) {
    && d.indexVersion == Some(db.configuration.indexVersion)
    && d.indexedPreset.Some? && d.indexedPreset.value in db.presets && db.configuration.active in db.presets
    && SameChunking(db, d.indexedPreset.value, db.configuration.active)
  }

  /** Every searchable document is up to date. */
  ghost predicate Uniform(db: Db) {
    forall id :: id in db.documents && db.documents[id].status == Indexed ==> UpToDate(db, db.documents[id])
  }

  /** A searchable document that is not up to date carries the version that the next job publishes. */
  ghost predicate AtMostOneAhead(db: Db) {
    forall id :: id in db.documents && db.documents[id].status == Indexed ==>
      UpToDate(db, db.documents[id]) || db.documents[id].indexVersion == Some(db.configuration.indexVersion + 1)
  }

  ghost predicate Inv(s: System) {
    && TablesOk(s.db)
    && IndexersOk(s)
    && ReindexersOk(s)
    && PhaseOk(s)
    && AtMostOneAhead(s.db)
  }

  // ---- every step keeps it ----

  lemma NoReindexerOutsideMaintenance(s: System)
    requires Inv(s) && !s.db.configuration.maintenance
    ensures s.reindexers == map[]
  {
    assert forall w :: w !in s.reindexers;
  }

  lemma NothingRunsWithoutActiveDocuments(s: System)
    requires Inv(s) && !HasActiveDocuments(s.db)
    ensures s.indexers == map[] && s.uploads == {}
  {
    assert forall w :: w !in s.indexers;
    assert forall id :: id !in s.uploads;
  }

  lemma NewJobKeepsTables(s: System, reply: Reply)
    requires Inv(s) && reply.Accepted?
    requires (exists k :: reply == StartPresetChange(s.db, k)) || (exists k: JobId :: reply == RetryReindexJob(s.db, k))
    ensures TablesOk(reply.db) && AtMostOneAhead(reply.db)
    ensures !s.db.configuration.maintenance && !HasActiveDocuments(s.db)
    ensures reply.background ==> Unfinished(reply.db, reply.job) && reply.db.jobs[reply.job].status == Pending
  {
    forall i: JobId | i < |s.db.jobs| ensures Unfinished(reply.db, i) <==> Unfinished(s.db, i) {}
    if reply.background { assert Unfinished(reply.db, reply.job); }
    forall i | 0 <= i < |reply.db.jobs| ensures JobOk(reply.db, reply.db.jobs[i]) {
      if i < |s.db.jobs| { assert JobOk(s.db, s.db.jobs[i]); assert !Unfinished(s.db, i); }
    }
  }

  /** Where nothing runs, a thread for an unfinished job may be started. */
  lemma NewThreadKeepsInv(s: System, db: Db, job: JobId, worker: Option<WorkerId>)
    requires s.phase == Serving && s.indexers == map[] && s.uploads == {} && TablesOk(db) && AtMostOneAhead(db)
    requires worker.Some? ==> Unfinished(db, job) && db.jobs[job].status == Pending
    ensures Inv(s.(db := db, reindexers := if worker == None then map[] else map[worker.value := JobTask(job, ToStart)]))
  {}

  lemma NewJobKeepsInv(s: System, reply: Reply, worker: Option<WorkerId>)
    requires Inv(s) && s.phase == Serving
    requires (exists k :: reply == StartPresetChange(s.db, k)) || (exists k: JobId :: reply == RetryReindexJob(s.db, k))
    requires AfterReply(s, reply, worker).Some?
    ensures Inv(AfterReply(s, reply, worker).value)
  {
    if reply.Accepted? {
      NewJobKeepsTables(s, reply);
      NoReindexerOutsideMaintenance(s);
      NothingRunsWithoutActiveDocuments(s);
      NewThreadKeepsInv(s, reply.db, reply.job, if reply.background then worker else None);
    }
  }

  lemma UploadKeepsInv(s: System, step: Step)
    requires Inv(s) && (step.UploadInsert? || step.UploadAccept? || step.UploadReject?)
    requires UploadStep(s, step).Some?
    ensures Inv(UploadStep(s, step).value)
  {
    var t := UploadStep(s, step).value;
    assert !s.db.configuration.maintenance;
    SameJobTable(s, t);
  }

  lemma DeleteKeepsInv(s: System, step: Step)
    requires Inv(s) && step.Delete? && Apply(s, step).Some?
    ensures Inv(Apply(s, step).value)
  {
    var t := Apply(s, step).value;
    SameJobTable(s, t);
    forall w | w in s.indexers ensures IndexerOk(t, t.indexers[w]) { assert IndexerOk(s, s.indexers[w]); }
    forall w | w in s.reindexers ensures ReindexerOk(t.db, t.reindexers[w]) { assert ReindexerOk(s.db, s.reindexers[w]); }
  }

  /** The job-table part only looks at the configuration and the jobs. */
  lemma SameJobTable(s: System, t: System)
    requires TablesOk(s.db)
    requires t.db.configuration == s.db.configuration && t.db.jobs == s.db.jobs && t.db.presets == s.db.presets
    ensures JobsConsistent(t.db) && t.db.configuration.active in t.db.presets
    ensures forall i :: 0 <= i < |t.db.jobs| ==> JobOk(t.db, t.db.jobs[i])
    ensures forall i: JobId :: Unfinished(t.db, i) <==> Unfinished(s.db, i)
  {
    forall i | 0 <= i < |t.db.jobs| ensures JobOk(t.db, t.db.jobs[i]) { assert JobOk(s.db, s.db.jobs[i]); }
    forall i: JobId ensures Unfinished(t.db, i) <==> Unfinished(s.db, i) {}
    if s.db.configuration.maintenance { var i: JobId :| Unfinished(s.db, i); assert Unfinished(t.db, i); }
  }

  /** The thread of an indexer step, and what the others see of it. */
  lemma OnlyOwnDocument(s: System, step: Step)
    requires Inv(s) && (step.IndexerBegin? || step.IndexerPublish? || step.IndexerFail? || step.IndexerDie?)
    requires step.w in s.indexers
    ensures IndexerOk(s, s.indexers[step.w]) && !s.db.configuration.maintenance && s.reindexers == map[]
    ensures forall w :: w in s.indexers && w != step.w ==>
              IndexerOk(s, s.indexers[w]) && s.indexers[w].document != s.indexers[step.w].document
  {
    assert !s.db.configuration.maintenance;
    NoReindexerOutsideMaintenance(s);
    forall w | w in s.indexers && w != step.w
      ensures IndexerOk(s, s.indexers[w]) && s.indexers[w].document != s.indexers[step.w].document
    {}
  }

  lemma IndexerBeginKeepsInv(s: System, step: Step)
    requires Inv(s) && step.IndexerBegin? && IndexerStep(s, step).Some?
    ensures Inv(IndexerStep(s, step).value)
  {
    OnlyOwnDocument(s, step);
    SameJobTable(s, IndexerStep(s, step).value);
  }

  lemma IndexerPublishKeepsInv(s: System, step: Step)
    requires Inv(s) && step.IndexerPublish? && IndexerStep(s, step).Some?
    ensures Inv(IndexerStep(s, step).value)
  {
    OnlyOwnDocument(s, step);
    SameJobTable(s, IndexerStep(s, step).value);
  }

  lemma IndexerEndKeepsInv(s: System, step: Step)
    requires Inv(s) && (step.IndexerFail? || step.IndexerDie?) && IndexerStep(s, step).Some?
    ensures Inv(IndexerStep(s, step).value)
  {
    OnlyOwnDocument(s, step);
    SameJobTable(s, IndexerStep(s, step).value);
  }

  lemma IndexerKeepsInv(s: System, step: Step)
    requires Inv(s) && (step.IndexerBegin? || step.IndexerPublish? || step.IndexerFail? || step.IndexerDie?)
    requires IndexerStep(s, step).Some?
    ensures Inv(IndexerStep(s, step).value)
  {
    hide Inv, IndexerStep;
    if step.IndexerBegin? {
      IndexerBeginKeepsInv(s, step);
    } else if step.IndexerPublish? {
      IndexerPublishKeepsInv(s, step);
    } else {
      IndexerEndKeepsInv(s, step);
    }
  }

  lemma ReindexerBeginKeepsInv(s: System, step: Step)
    requires Inv(s) && step.ReindexerBegin? && ReindexerStep(s, step).Some?
    ensures Inv(ReindexerStep(s, step).value)
  {
    var t := ReindexerStep(s, step).value;
    assert ReindexerOk(s.db, s.reindexers[step.w]);
    SameJobTable(s, t);
    assert ReindexerOk(t.db, t.reindexers[step.w]);
  }

  lemma ReindexerPublishKeepsInv(s: System, step: Step)
    requires Inv(s) && step.ReindexerPublish? && ReindexerStep(s, step).Some?
    ensures Inv(ReindexerStep(s, step).value)
  {
    var t := ReindexerStep(s, step).value;
    assert ReindexerOk(s.db, s.reindexers[step.w]);
    SameJobTable(s, t);
    assert ReindexerOk(t.db, t.reindexers[step.w]);
  }

  lemma ReindexerFailDocumentKeepsInv(s: System, step: Step)
    requires Inv(s) && step.ReindexerFailDocument? && ReindexerStep(s, step).Some?
    ensures Inv(ReindexerStep(s, step).value)
  {
    var t := ReindexerStep(s, step).value;
    assert ReindexerOk(s.db, s.reindexers[step.w]);
    SameJobTable(s, t);
    assert ReindexerOk(t.db, t.reindexers[step.w]);
  }

  lemma ReindexerProgressKeepsInv(s: System, step: Step)
    requires Inv(s) && (step.ReindexerStart? || step.ReindexerCount?)
    requires ReindexerStep(s, step).Some?
    ensures Inv(ReindexerStep(s, step).value)
  {
    var t := ReindexerStep(s, step).value;
    var own := s.reindexers[step.w];
    assert ReindexerOk(s.db, own);
    assert JobOk(s.db, s.db.jobs[own.job]);
    forall i: JobId ensures Unfinished(t.db, i) <==> Unfinished(s.db, i) {}
    assert Unfinished(t.db, own.job);
    forall i | 0 <= i < |t.db.jobs| ensures JobOk(t.db, t.db.jobs[i]) { assert JobOk(s.db, s.db.jobs[i]); }
    assert ReindexerOk(t.db, t.reindexers[step.w]);
  }

  lemma ReindexerEndKeepsInv(s: System, step: Step)
    requires Inv(s) && (step.ReindexerFinish? || step.ReindexerAbort? || step.ReindexerDie?)
    requires ReindexerStep(s, step).Some?
    ensures Inv(ReindexerStep(s, step).value)
  {
    var t := ReindexerStep(s, step).value;
    var own := s.reindexers[step.w];
    assert ReindexerOk(s.db, own);
    assert JobOk(s.db, s.db.jobs[own.job]);
    if step.ReindexerDie? {
      SameJobTable(s, t);
    } else {
      forall i: JobId ensures !Unfinished(t.db, i) { assert Unfinished(t.db, i) ==> Unfinished(s.db, i); }
      forall i | 0 <= i < |t.db.jobs| ensures JobOk(t.db, t.db.jobs[i]) {
        assert JobOk(s.db, s.db.jobs[i]);
        assert UnfinishedJob(t.db.jobs[i]) ==> Unfinished(t.db, i);
      }
    }
  }

  lemma RecoveredTablesOk(db: Db)
    requires TablesOk(db) && AtMostOneAhead(db)
    ensures TablesOk(RecoverJobs(db)) && AtMostOneAhead(RecoverJobs(db))
    ensures LastUnfinished(db.jobs) < 0 ==> !RecoverJobs(db).configuration.maintenance
    ensures LastUnfinished(db.jobs) >= 0 ==>
              && Unfinished(RecoverJobs(db), LastUnfinished(db.jobs))
              && RecoverJobs(db).jobs[LastUnfinished(db.jobs)].status == Pending
  {
    var r := RecoverJobs(db);
    RecoveryRestoresJobs(db);
    forall i: JobId | i < |r.jobs| ensures JobOk(r, r.jobs[i]) {
      assert JobOk(db, db.jobs[i]);
      assert Unfinished(db, i) ==> UnfinishedJob(db.jobs[i]);
    }
  }

  lemma JobRecoveryKeepsInv(s: System)
    requires Inv(s) && RecoveryStep(s, RecoverJobTable).Some?
    ensures Inv(RecoveryStep(s, RecoverJobTable).value)
  {
    RecoveredTablesOk(s.db);
  }

  lemma RecoveryKeepsInv(s: System, step: Step)
    requires Inv(s) && (step.Crash? || step.RecoverJobTable? || step.RecoverDocumentTable?)
    requires RecoveryStep(s, step).Some?
    ensures Inv(RecoveryStep(s, step).value)
  {
    var t := RecoveryStep(s, step).value;
    if step.RecoverJobTable? {
      JobRecoveryKeepsInv(s);
    } else {
      SameJobTable(s, t);
      if step.RecoverDocumentTable? && !s.db.configuration.maintenance {
        forall w | w in t.indexers ensures IndexerOk(t, t.indexers[w]) {}
      }
    }
  }

  lemma StepKeepsInv(s: System, step: Step)
    requires Inv(s) && Apply(s, step).Some?
    ensures Inv(Apply(s, step).value)
  {
    if step.ChangePreset? {
      NewJobKeepsInv(s, StartPresetChange(s.db, step.target), step.worker);
    } else if step.Retry? {
      NewJobKeepsInv(s, RetryReindexJob(s.db, step.failedJob), step.worker);
    } else if step.UploadInsert? || step.UploadAccept? || step.UploadReject? {
      UploadKeepsInv(s, step);
    } else if step.Delete? {
      DeleteKeepsInv(s, step);
    } else if step.IndexerBegin? || step.IndexerPublish? || step.IndexerFail? || step.IndexerDie? {
      IndexerKeepsInv(s, step);
    } else if step.ReindexerBegin? {
      ReindexerBeginKeepsInv(s, step);
    } else if step.ReindexerPublish? {
      ReindexerPublishKeepsInv(s, step);
    } else if step.ReindexerFailDocument? {
      ReindexerFailDocumentKeepsInv(s, step);
    } else if step.ReindexerStart? || step.ReindexerCount? {
      ReindexerProgressKeepsInv(s, step);
    } else if step.ReindexerFinish? || step.ReindexerAbort? || step.ReindexerDie? {
      ReindexerEndKeepsInv(s, step);
    } else {
      RecoveryKeepsInv(s, step);
    }
  }
}
