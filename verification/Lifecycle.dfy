/**
 The retrieval configuration row, the reindex job table and the document table, and every database
 transaction that the reindex service, the document processor, the document service and start-up
 recovery commit on them. Each function below is one transaction: it maps the committed state before
 to the committed state after.
 */
module Lifecycle {
  import opened Prelude

  type PresetKey = string
  type DocumentId = int
  type JobId = nat

  datatype Preset = Preset(chunkSize: int, chunkOverlap: int, topK: int)

  datatype ChangePlan = ChangePlan(reindexDocuments: bool, runtimeSettingsChanged: bool)

  function PlanPresetChange(current: Preset, target: Preset): ChangePlan {
    ChangePlan(
      current.chunkSize != target.chunkSize || current.chunkOverlap != target.chunkOverlap,
      current.topK != target.topK)
  }

  datatype Configuration = Configuration(
    active: PresetKey,
    pending: Option<PresetKey>,
    indexVersion: nat,
    maintenance: bool)

  datatype JobStatus = Pending | Running | Completed | CompletedWithErrors | Failed

  datatype Job = Job(
    source: PresetKey,
    target: PresetKey,
    targetVersion: nat,
    reindexDocuments: bool,
    rebuildVectorIndex: bool,
    runtimeSettingsChanged: bool,
    status: JobStatus,
    total: nat,
    completed: nat,
    failed: nat)

  /** One indexing pass: the run of the pipeline that produced a set of chunks, and how many it produced. */
  datatype Pass = Pass(id: nat, preset: PresetKey, version: nat, count: nat)

  datatype ChunkRow = ChunkRow(pass: Pass, index: nat)

  datatype DocumentStatus = Uploaded | Processing | Indexed | Rejected

  datatype Document = Document(
    hasFile: bool,
    status: DocumentStatus,
    indexedPreset: Option<PresetKey>,
    indexVersion: Option<nat>,
    chunks: seq<ChunkRow>)

  /** The jobs are kept in the order in which the recovery query lists them: by creation, then by id. */
  datatype Db = Db(
    presets: map<PresetKey, Preset>,
    configuration: Configuration,
    jobs: seq<Job>,
    documents: map<DocumentId, Document>)

  datatype Refusal =
    | MaintenanceRunning | DocumentsActive | PresetNotFound | ActivePresetMissing
    | PresetAlreadyActive | JobNotFound | JobNotRetryable

  /** What a job request answers: the committed state with the new job's id, or a refusal that commits nothing. */
  datatype Reply = Accepted(db: Db, job: JobId, background: bool) | Refused(reason: Refusal)

  predicate Active(d: Document) {
    d.status == Uploaded || d.status == Processing
  }

  predicate HasActiveDocuments(db: Db) {
    exists id :: id in db.documents && Active(db.documents[id])
  }

  predicate UnfinishedJob(j: Job) {
    j.status == Pending || j.status == Running
  }

  function StartPresetChange(db: Db, target: PresetKey): Reply {
    var c := db.configuration;
    if c.maintenance then Refused(MaintenanceRunning)
    else if HasActiveDocuments(db) then Refused(DocumentsActive)
    else if target !in db.presets then Refused(PresetNotFound)
    else if c.active !in db.presets then Refused(ActivePresetMissing)
    else if c.active == target then Refused(PresetAlreadyActive)
    else
      var plan := PlanPresetChange(db.presets[c.active], db.presets[target]);
      var job := Job(c.active, target, c.indexVersion + (if plan.reindexDocuments then 1 else 0),
                     plan.reindexDocuments, false, plan.runtimeSettingsChanged, Pending, 0, 0, 0);
      if plan.reindexDocuments then
        Accepted(db.(configuration := c.(pending := Some(target), maintenance := true),
                     jobs := db.jobs + [job]), |db.jobs|, true)
      else
        Accepted(db.(configuration := c.(active := target),
                     jobs := db.jobs + [job.(status := Completed)]), |db.jobs|, false)
  }

  function RetryReindexJob(db: Db, failedJob: JobId): Reply {
    var c := db.configuration;
    if c.maintenance then Refused(MaintenanceRunning)
    else if HasActiveDocuments(db) then Refused(DocumentsActive)
    else if failedJob >= |db.jobs| then Refused(JobNotFound)
    else
      var prior := db.jobs[failedJob];
      if prior.status != Failed && prior.status != CompletedWithErrors then Refused(JobNotRetryable)
      else if prior.target !in db.presets then Refused(PresetNotFound)
      else
        var job := Job(c.active, prior.target, c.indexVersion + 1, true, prior.rebuildVectorIndex,
                       prior.runtimeSettingsChanged, Pending, 0, 0, 0);
        Accepted(db.(configuration := c.(pending := Some(prior.target), maintenance := true),
                     jobs := db.jobs + [job]), |db.jobs|, true)
  }

  // ---- transactions of the document service ----

  function InsertUpload(db: Db, id: DocumentId): Db {
    db.(documents := db.documents[id := Document(false, Uploaded, None, None, [])])
  }

  function AttachFile(db: Db, id: DocumentId): Db
    requires id in db.documents
  {
    db.(documents := db.documents[id := db.documents[id].(hasFile := true)])
  }

  function DeleteDocuments(db: Db, ids: set<DocumentId>): Db {
    db.(documents := db.documents - ids)
  }

  // ---- transactions of the document processor ----

  /** First commit: an optional reset of the derived rows, then status "processing". */
  function BeginIndexing(db: Db, id: DocumentId, reset: bool): Db
    requires id in db.documents
  {
    var d := db.documents[id];
    db.(documents := db.documents[id := d.(status := Processing, chunks := if reset then [] else d.chunks)])
  }

  function PassRows(pass: Pass): seq<ChunkRow> {
    seq(pass.count, i requires 0 <= i => ChunkRow(pass, i))
  }

  /** Second commit: the chunks of the pass are added and the status and index metadata published together. */
  function PublishIndex(db: Db, id: DocumentId, pass: Pass): Db
    requires id in db.documents
  {
    var d := db.documents[id];
    db.(documents := db.documents[id :=
      d.(status := Indexed, indexedPreset := Some(pass.preset), indexVersion := Some(pass.version),
         chunks := d.chunks + PassRows(pass))])
  }

  /** The failure path: whatever the open transaction did is rolled back, then the failure is committed. */
  function FailIndexing(db: Db, id: DocumentId): Db {
    if id in db.documents then
      db.(documents := db.documents[id := db.documents[id].(status := Rejected)])
    else db
  }

  // ---- transactions of the reindex worker ----

  function MarkRunning(db: Db, job: JobId, total: nat): Db
    requires job < |db.jobs|
  {
    db.(jobs := db.jobs[job := db.jobs[job].(status := Running, total := total)])
  }

  function CountDocument(db: Db, job: JobId, succeeded: bool): Db
    requires job < |db.jobs|
  {
    var j := db.jobs[job];
    db.(jobs := db.jobs[job := if succeeded then j.(completed := j.completed + 1)
                               else j.(failed := j.failed + 1)])
  }

  function FinishJob(db: Db, job: JobId): Db
    requires job < |db.jobs|
  {
    var j := db.jobs[job];
    db.(configuration := db.configuration.(active := j.target, pending := None,
                                           indexVersion := j.targetVersion, maintenance := false),
        jobs := db.jobs[job := j.(status := if j.failed != 0 then CompletedWithErrors else Completed)])
  }

  /** The exception handler of the worker: the job is failed and the configuration released. */
  function AbortJob(db: Db, job: JobId): Db {
    db.(configuration := db.configuration.(pending := None, maintenance := false),
        jobs := if job < |db.jobs| then db.jobs[job := db.jobs[job].(status := Failed)] else db.jobs)
  }

  // ---- transactions of start-up recovery ----

  /** The index of the last job that is pending or running, or -1. */
  function LastUnfinished(jobs: seq<Job>): (i: int)
    ensures -1 <= i < |jobs|
    ensures i >= 0 ==> UnfinishedJob(jobs[i])
    ensures forall k :: i < k < |jobs| ==> !UnfinishedJob(jobs[k])
  {
    if |jobs| == 0 then -1
    else if UnfinishedJob(jobs[|jobs| - 1]) then |jobs| - 1
    else LastUnfinished(jobs[..|jobs| - 1])
  }

  function Reset(j: Job): Job {
    j.(status := Pending, total := 0, completed := 0, failed := 0)
  }

  function RecoverJobs(db: Db): Db {
    var owner := LastUnfinished(db.jobs);
    if owner < 0 then
      db.(configuration := db.configuration.(pending := None, maintenance := false))
    else
      db.(configuration := db.configuration.(pending := Some(db.jobs[owner].target), maintenance := true),
          jobs := seq(|db.jobs|, i requires 0 <= i < |db.jobs| =>
            if i == owner then Reset(db.jobs[i])
            else if UnfinishedJob(db.jobs[i]) then db.jobs[i].(status := Failed)
            else db.jobs[i]))
  }

  function Requeue(d: Document): Document {
    if !Active(d) then d else d.(status := if d.hasFile then Uploaded else Rejected)
  }

  function RecoverDocuments(db: Db): Db {
    if db.configuration.maintenance then db
    else db.(documents := map id | id in db.documents :: Requeue(db.documents[id]))
  }

  /** The documents whose workers start-up recovery starts again. */
  function Requeued(db: Db): set<DocumentId> {
    if db.configuration.maintenance then {}
    else set id | id in db.documents && Active(db.documents[id]) && db.documents[id].hasFile
  }

  // ---- the shape of the job table ----

  ghost predicate Unfinished(db: Db, i: JobId) {
    i < |db.jobs| && UnfinishedJob(db.jobs[i])
  }

  /** Maintenance, the pending preset and the unfinished job agree: the part recovery restores from any state. */
  ghost predicate JobsConsistent(db: Db) {
    && (forall i: JobId, j: JobId :: Unfinished(db, i) && Unfinished(db, j) ==> i == j)
    && (db.configuration.maintenance <==> exists i: JobId :: Unfinished(db, i))
    && (forall i: JobId :: Unfinished(db, i) ==> db.configuration.pending == Some(db.jobs[i].target))
    && (!db.configuration.maintenance ==> db.configuration.pending == None)
  }

  /** Recovery establishes the job-table agreement from ANY database state, keeps the newest unfinished
      job with its counters cleared, and touches nothing but the configuration flags and unfinished jobs. */
  lemma RecoveryRestoresJobs(db: Db)
    ensures JobsConsistent(RecoverJobs(db))
    ensures RecoverJobs(RecoverJobs(db)) == RecoverJobs(db)
    ensures forall i: JobId :: Unfinished(RecoverJobs(db), i) <==> i == LastUnfinished(db.jobs)
    ensures forall i: JobId :: Unfinished(RecoverJobs(db), i) ==>
              RecoverJobs(db).jobs[i] == db.jobs[i].(status := Pending, total := 0, completed := 0, failed := 0)
    ensures |RecoverJobs(db).jobs| == |db.jobs| && RecoverJobs(db).presets == db.presets
    ensures forall i: JobId :: Unfinished(db, i) && !Unfinished(RecoverJobs(db), i) ==>
              RecoverJobs(db).jobs[i] == db.jobs[i].(status := Failed)
    ensures RecoverJobs(db).configuration.active == db.configuration.active
    ensures RecoverJobs(db).configuration.indexVersion == db.configuration.indexVersion
    ensures RecoverJobs(db).documents == db.documents
    ensures forall i :: 0 <= i < |db.jobs| && !UnfinishedJob(db.jobs[i]) ==> RecoverJobs(db).jobs[i] == db.jobs[i]
  {
    var r := RecoverJobs(db);
    var owner := LastUnfinished(db.jobs);
    if owner >= 0 {
      assert Unfinished(r, owner);
      assert LastUnfinished(r.jobs) == owner;
      assert RecoverJobs(r).jobs == r.jobs;
    }
  }

  // ---- what a granted request does, and when it is granted ----

  ghost predicate Idle(db: Db) {
    && !db.configuration.maintenance
    && forall id :: id in db.documents ==> db.documents[id].status == Indexed || db.documents[id].status == Rejected
  }

  /** A preset change: the switch at once when the chunks stay valid, a pending job for the next version otherwise. */
  ghost predicate PresetChanged(before: Db, target: PresetKey, after: Db)
    requires before.configuration.active in before.presets && target in before.presets
  {
    var c, from, to := before.configuration, before.presets[before.configuration.active], before.presets[target];
    var sameChunks := from.chunkSize == to.chunkSize && from.chunkOverlap == to.chunkOverlap;
    && after.presets == before.presets && after.documents == before.documents
    && |after.jobs| == |before.jobs| + 1 && after.jobs[..|before.jobs|] == before.jobs
    && var job := after.jobs[|before.jobs|];
       && job.source == c.active && job.target == target
       && job.runtimeSettingsChanged == (from.topK != to.topK) && !job.rebuildVectorIndex
       && job.total == job.completed == job.failed == 0
       && (if sameChunks then
             && job.status == Completed && !job.reindexDocuments && job.targetVersion == c.indexVersion
             && after.configuration == Configuration(target, c.pending, c.indexVersion, c.maintenance)
           else
             && job.status == Pending && job.reindexDocuments && job.targetVersion == c.indexVersion + 1
             && after.configuration == Configuration(c.active, Some(target), c.indexVersion, true))
  }

  /** It is granted exactly outside maintenance, without active documents, from a known preset to another one. */
  lemma PresetChangeIsGrantedExactly(db: Db, target: PresetKey)
    ensures var reply := StartPresetChange(db, target);
            && (reply.Accepted? <==> Idle(db) && db.configuration.active in db.presets && target in db.presets
                                     && target != db.configuration.active)
            && (reply.Accepted? ==> PresetChanged(db, target, reply.db) && reply.job == |db.jobs|
                                    && (reply.background <==> reply.db.configuration.maintenance))
  {}

  /** A retry: a pending job to the failed job's target for the next version, whatever the presets are. */
  ghost predicate JobRetried(before: Db, failedJob: JobId, after: Db)
    requires failedJob < |before.jobs|
  {
    var c, prior := before.configuration, before.jobs[failedJob];
    && after.presets == before.presets && after.documents == before.documents
    && |after.jobs| == |before.jobs| + 1 && after.jobs[..|before.jobs|] == before.jobs
    && var job := after.jobs[|before.jobs|];
       && job.source == c.active && job.target == prior.target && job.targetVersion == c.indexVersion + 1
       && job.reindexDocuments && job.rebuildVectorIndex == prior.rebuildVectorIndex
       && job.runtimeSettingsChanged == prior.runtimeSettingsChanged
       && job.status == Pending && job.total == job.completed == job.failed == 0
       && after.configuration == Configuration(c.active, Some(prior.target), c.indexVersion, true)
  }

  lemma RetryIsGrantedExactly(db: Db, failedJob: JobId)
    ensures var reply := RetryReindexJob(db, failedJob);
            && (reply.Accepted? <==> Idle(db) && failedJob < |db.jobs|
                                     && db.jobs[failedJob].status in {Failed, CompletedWithErrors}
                                     && db.jobs[failedJob].target in db.presets)
            && (reply.Accepted? ==> JobRetried(db, failedJob, reply.db) && reply.job == |db.jobs| && reply.background)
  {}

  /** A job that ended by exception: failed, the active preset and its version as they were, maintenance over. */
  ghost predicate JobFailed(before: Db, job: JobId, after: Db)
    requires job < |before.jobs|
  {
    && after.presets == before.presets && after.documents == before.documents
    && after.configuration == Configuration(before.configuration.active, None, before.configuration.indexVersion, false)
    && |after.jobs| == |before.jobs|
    && after.jobs[job] == before.jobs[job].(status := Failed)
    && forall i :: 0 <= i < |before.jobs| && i != job ==> after.jobs[i] == before.jobs[i]
  }

  /** Start-up outside maintenance: an interrupted document with a file waits for a new thread, one without is
      given up, and every other document stays; in maintenance the job takes care of them all. */
  lemma RecoveryRestartsInterruptedDocuments(db: Db)
    ensures RecoverDocuments(db).documents.Keys == db.documents.Keys
    ensures RecoverDocuments(db) == db.(documents := RecoverDocuments(db).documents)
    ensures forall id :: id in Requeued(db) <==>
              && !db.configuration.maintenance && id in db.documents && db.documents[id].hasFile
              && db.documents[id].status in {Uploaded, Processing}
    ensures forall id :: id in db.documents ==>
              RecoverDocuments(db).documents[id] ==
                if db.configuration.maintenance || db.documents[id].status !in {Uploaded, Processing} then db.documents[id]
                else db.documents[id].(status := if db.documents[id].hasFile then Uploaded else Rejected)
  {
    if db.configuration.maintenance { assert RecoverDocuments(db).documents == db.documents; }
  }

  /** The rows of a pass are as many as it counted, numbered from 0 without gaps. */
  ghost predicate RowsOf(rows: seq<ChunkRow>, pass: Pass) {
    |rows| == pass.count && forall i :: 0 <= i < |rows| ==> rows[i].pass == pass && rows[i].index == i
  }

  lemma PassRowsAreItsRows(pass: Pass)
    ensures forall rows :: rows == PassRows(pass) <==> RowsOf(rows, pass)
  {}

  lemma OnePassOfRows(pass: Pass)
    ensures RowsOf(PassRows(pass), pass) && [] + PassRows(pass) == PassRows(pass)
  {}
}
