/**
 The reindex and document lifecycle protocol as a state machine at transaction granularity: one step is
 one commit of a request, of an indexing thread, of the reindex thread or of start-up recovery. Threads
 and in-flight uploads live in memory only; a crash may happen between any two steps and loses them.
 */
module Protocol {
  import opened Prelude
  import opened Lifecycle

  type WorkerId = nat

  /** Where one call of process_document stands: before its first commit, or between its two commits. */
  datatype Stage = ToBegin | ToPublish(preset: PresetKey, version: nat)

  datatype IndexTask = IndexTask(document: DocumentId, reset: bool, stage: Stage)

  datatype JobStage =
    | ToStart
    | NextDocument(todo: seq<DocumentId>)
    | InDocument(todo: seq<DocumentId>)
    | ToCount(todo: seq<DocumentId>, succeeded: bool)

  datatype JobTask = JobTask(job: JobId, stage: JobStage)

  datatype Phase = Down | JobsRecovered(owner: Option<JobId>) | Serving

  /** `passes` numbers the indexing passes; no step reads it. */
  datatype System = System(
    db: Db,
    phase: Phase,
    uploads: set<DocumentId>,
    indexers: map<WorkerId, IndexTask>,
    reindexers: map<WorkerId, JobTask>,
    passes: nat)

  datatype Step =
    | ChangePreset(target: PresetKey, worker: Option<WorkerId>)
    | Retry(failedJob: JobId, worker: Option<WorkerId>)
    | UploadInsert(document: DocumentId)
    | UploadAccept(document: DocumentId, worker: Option<WorkerId>)
    | UploadReject(document: DocumentId)
    | Delete(documents: set<DocumentId>)
    | IndexerBegin(w: WorkerId)
    | IndexerPublish(w: WorkerId, count: nat)
    | IndexerFail(w: WorkerId)
    | IndexerDie(w: WorkerId)
    | ReindexerStart(w: WorkerId, order: seq<DocumentId>)
    | ReindexerBegin(w: WorkerId)
    | ReindexerPublish(w: WorkerId, count: nat)
    | ReindexerFailDocument(w: WorkerId)
    | ReindexerCount(w: WorkerId)
    | ReindexerFinish(w: WorkerId)
    | ReindexerAbort(w: WorkerId)
    | ReindexerDie(w: WorkerId)
    | Crash
    | RecoverJobTable
    | RecoverDocumentTable(spawned: map<WorkerId, IndexTask>, reindexer: WorkerId)

  ghost predicate Lists(order: seq<DocumentId>, ids: set<DocumentId>) {
    && NoDuplicates(order)
    && (forall k :: 0 <= k < |order| ==> order[k] in ids)
    && (forall id :: id in ids ==> id in order)
  }

  ghost predicate DistinctDocuments(tasks: map<WorkerId, IndexTask>) {
    forall v, w :: v in tasks && w in tasks && tasks[v].document == tasks[w].document ==> v == w
  }

  /** One fresh indexing thread, with reset, for each requeued document. */
  ghost predicate SpawnedFor(tasks: map<WorkerId, IndexTask>, ids: set<DocumentId>) {
    && DistinctDocuments(tasks)
    && (forall w :: w in tasks ==> tasks[w].document in ids && tasks[w].reset && tasks[w].stage == ToBegin)
    && (forall id :: id in ids ==> exists w :: w in tasks && tasks[w].document == id)
  }

  // ---- the steps; None when a step is not possible in a state ----

  /** A granted job request may start a reindex thread, unless the process stops before it does. */
  function AfterReply(s: System, reply: Reply, worker: Option<WorkerId>): Option<System> {
    match reply
    case Refused(_) => Some(s)
    case Accepted(db, job, background) =>
      if !background || worker == None then Some(s.(db := db))
      else if worker.value in s.reindexers then None
      else Some(s.(db := db, reindexers := s.reindexers[worker.value := JobTask(job, ToStart)]))
  }

  function UploadStep(s: System, step: Step): Option<System>
    requires step.UploadInsert? || step.UploadAccept? || step.UploadReject?
  {
    match step
    case UploadInsert(id) =>
      if s.phase != Serving || id in s.db.documents || s.db.configuration.maintenance then None
      else Some(s.(db := InsertUpload(s.db, id), uploads := s.uploads + {id}))
    case UploadAccept(id, worker) =>
      if s.phase != Serving || id !in s.uploads || id !in s.db.documents then None
      else if worker.Some? && worker.value in s.indexers then None
      else
        Some(s.(db := AttachFile(s.db, id), uploads := s.uploads - {id},
                indexers := if worker.None? then s.indexers
                            else s.indexers[worker.value := IndexTask(id, false, ToBegin)]))
    case UploadReject(id) =>
      if s.phase != Serving || id !in s.uploads then None
      else Some(s.(db := DeleteDocuments(s.db, {id}), uploads := s.uploads - {id}))
  }

  function IndexerStep(s: System, step: Step): Option<System>
    requires step.IndexerBegin? || step.IndexerPublish? || step.IndexerFail? || step.IndexerDie?
  {
    var w := step.w;
    if w !in s.indexers then None
    else
      var t := s.indexers[w];
      var ended := s.indexers - {w};
      match step
      case IndexerBegin(_) =>
        var c := s.db.configuration;
        if t.stage != ToBegin then None
        else if t.document !in s.db.documents then Some(s.(indexers := ended))
        else if c.active !in s.db.presets then
          Some(s.(db := FailIndexing(s.db, t.document), indexers := ended))
        else
          Some(s.(db := BeginIndexing(s.db, t.document, t.reset),
                  indexers := s.indexers[w := t.(stage := ToPublish(c.active, c.indexVersion))]))
      case IndexerPublish(_, count) =>
        if t.stage == ToBegin || t.document !in s.db.documents || count == 0 then None
        else
          Some(s.(db := PublishIndex(s.db, t.document, Pass(s.passes, t.stage.preset, t.stage.version, count)),
                  passes := s.passes + 1, indexers := ended))
      case IndexerFail(_) => Some(s.(db := FailIndexing(s.db, t.document), indexers := ended))
      case IndexerDie(_) => Some(s.(indexers := ended))
  }

  predicate IsReindexerStep(step: Step) {
    step.ReindexerStart? || step.ReindexerBegin? || step.ReindexerPublish? || step.ReindexerFailDocument?
    || step.ReindexerCount? || step.ReindexerFinish? || step.ReindexerAbort? || step.ReindexerDie?
  }

  ghost function ReindexerStep(s: System, step: Step): Option<System>
    requires IsReindexerStep(step)
  {
    var w := step.w;
    if w !in s.reindexers || s.reindexers[w].job >= |s.db.jobs| then None
    else
      var t := s.reindexers[w];
      var j := s.db.jobs[t.job];
      var ended := s.reindexers - {w};
      match step
      case ReindexerStart(_, order) =>
        if t.stage != ToStart || !Lists(order, s.db.documents.Keys) then None
        else if j.status != Pending then Some(s.(reindexers := ended))
        else
          var todo := if j.reindexDocuments then order else [];
          Some(s.(db := MarkRunning(s.db, t.job, |todo|),
                  reindexers := s.reindexers[w := t.(stage := NextDocument(todo))]))
      case ReindexerBegin(_) =>
        if !t.stage.NextDocument? || t.stage.todo == [] then None
        else
          var id := t.stage.todo[0];
          if id !in s.db.documents || j.target !in s.db.presets then
            Some(s.(db := FailIndexing(s.db, id),
                    reindexers := s.reindexers[w := t.(stage := ToCount(t.stage.todo, false))]))
          else
            Some(s.(db := BeginIndexing(s.db, id, j.reindexDocuments),
                    reindexers := s.reindexers[w := t.(stage := InDocument(t.stage.todo))]))
      case ReindexerPublish(_, count) =>
        if !t.stage.InDocument? || t.stage.todo == [] || t.stage.todo[0] !in s.db.documents || count == 0 then None
        else
          Some(s.(db := PublishIndex(s.db, t.stage.todo[0], Pass(s.passes, j.target, j.targetVersion, count)),
                  passes := s.passes + 1,
                  reindexers := s.reindexers[w := t.(stage := ToCount(t.stage.todo, true))]))
      case ReindexerFailDocument(_) =>
        if !(t.stage.NextDocument? || t.stage.InDocument?) || t.stage.todo == [] then None
        else
          Some(s.(db := FailIndexing(s.db, t.stage.todo[0]),
                  reindexers := s.reindexers[w := t.(stage := ToCount(t.stage.todo, false))]))
      case ReindexerCount(_) =>
        if !t.stage.ToCount? || t.stage.todo == [] then None
        else
          Some(s.(db := CountDocument(s.db, t.job, t.stage.succeeded),
                  reindexers := s.reindexers[w := t.(stage := NextDocument(t.stage.todo[1..]))]))
      case ReindexerFinish(_) =>
        if t.stage != NextDocument([]) then None
        else Some(s.(db := FinishJob(s.db, t.job), reindexers := ended))
      case ReindexerAbort(_) =>
        Some(s.(db := AbortJob(s.db, t.job), reindexers := ended))
      case ReindexerDie(_) => Some(s.(reindexers := ended))
  }

  ghost function RecoveryStep(s: System, step: Step): Option<System>
    requires step.Crash? || step.RecoverJobTable? || step.RecoverDocumentTable?
  {
    match step
    case Crash => Some(s.(phase := Down, uploads := {}, indexers := map[], reindexers := map[]))
    case RecoverJobTable =>
      if s.phase != Down then None
      else
        var owner := LastUnfinished(s.db.jobs);
        Some(s.(db := RecoverJobs(s.db), phase := JobsRecovered(if owner < 0 then None else Some(owner))))
    case RecoverDocumentTable(spawned, reindexer) =>
      if !s.phase.JobsRecovered? || !SpawnedFor(spawned, Requeued(s.db)) then None
      else
        Some(s.(db := RecoverDocuments(s.db), phase := Serving, indexers := spawned,
                reindexers := if s.phase.owner == None then map[]
                              else map[reindexer := JobTask(s.phase.owner.value, ToStart)]))
  }

  ghost function Apply(s: System, step: Step): Option<System> {
    if step.ChangePreset? then
      if s.phase != Serving then None else AfterReply(s, StartPresetChange(s.db, step.target), step.worker)
    else if step.Retry? then
      if s.phase != Serving then None else AfterReply(s, RetryReindexJob(s.db, step.failedJob), step.worker)
    else if step.UploadInsert? || step.UploadAccept? || step.UploadReject? then UploadStep(s, step)
    else if step.Delete? then
      // The maintenance guard may already be stale when the rows go: only the status check is relied on.
      if s.phase != Serving || exists id :: id in step.documents && id in s.db.documents && Active(s.db.documents[id])
      then None
      else Some(s.(db := DeleteDocuments(s.db, step.documents)))
    else if step.IndexerBegin? || step.IndexerPublish? || step.IndexerFail? || step.IndexerDie? then IndexerStep(s, step)
    else if IsReindexerStep(step) then ReindexerStep(s, step)
    else RecoveryStep(s, step)
  }

  /** The state after a run, or None when some step of it was not possible. */
  ghost function Run(s: System, steps: seq<Step>): Option<System> {
    if steps == [] then Some(s)
    else
      var r := Run(s, steps[..|steps| - 1]);
      if r == None then None else Apply(r.value, steps[|steps| - 1])
  }

  /** A freshly migrated database and a stopped process. */
  ghost predicate Initial(s: System) {
    && s.db.configuration.active in s.db.presets
    && s.db.configuration.pending == None && !s.db.configuration.maintenance
    && s.db.jobs == [] && s.db.documents == map[]
    && s.phase == Down && s.uploads == {} && s.indexers == map[] && s.reindexers == map[]
  }
}
