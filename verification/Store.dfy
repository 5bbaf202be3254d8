/**
 The services that change the rows, written the way they run: field by field on the configuration row, the
 job rows and the document rows of one store. Every method is proved against the transaction functions of
 Lifecycle that the protocol is built from; what the database, the PDF pipeline and the embedding service
 answer comes in as parameters.
 */
module Store {
  import opened Prelude
  import opened Lifecycle
  import opened Protocol
  import opened ProtocolInvariant

  /** How the pipeline of one process_document call ends: an exception before its first commit, an exception
      after it, or a set of `count` chunks (none counts as an exception too). */
  datatype Outcome = RaisesFirst | RaisesLater | Extracted(count: nat)

  /** The pass a call of process_document publishes, if it gets that far. */
  function Published(db: Db, preset: PresetKey, version: nat, outcome: Outcome, pass: nat): Option<Pass> {
    if preset in db.presets && outcome.Extracted? && outcome.count > 0
    then Some(Pass(pass, preset, version, outcome.count)) else None
  }

  /** The committed state after one uninterrupted call of process_document. */
  function Called(db: Db, id: DocumentId, preset: PresetKey, version: nat, reset: bool, outcome: Outcome, pass: nat): Db {
    if id !in db.documents then db
    else if preset !in db.presets || outcome == RaisesFirst then FailIndexing(db, id)
    else
      var published := Published(db, preset, version, outcome, pass);
      if published == None then FailIndexing(BeginIndexing(db, id, reset), id)
      else PublishIndex(BeginIndexing(db, id, reset), id, published.value)
  }

  predicate Succeeds(db: Db, id: DocumentId, preset: PresetKey, outcome: Outcome) {
    id in db.documents && Published(db, preset, 0, outcome, 0).Some?
  }

  /** The committed state, and how many indexing passes were published before. */
  datatype Progress = Progress(db: Db, passes: nat)

  /** One round of the reindex loop. */
  function Round(p: Progress, job: JobId, id: DocumentId, outcome: Outcome): (q: Progress)
    requires job < |p.db.jobs|
    ensures |q.db.jobs| == |p.db.jobs|
  {
    var j := p.db.jobs[job];
    var succeeded := Succeeds(p.db, id, j.target, outcome);
    Progress(CountDocument(Called(p.db, id, j.target, j.targetVersion, j.reindexDocuments, outcome, p.passes), job, succeeded),
             p.passes + if succeeded then 1 else 0)
  }

  /** The loop over these documents. */
  function Rounds(p: Progress, job: JobId, ids: seq<DocumentId>, outcomes: DocumentId -> Outcome): (q: Progress)
    requires job < |p.db.jobs|
    ensures |q.db.jobs| == |p.db.jobs|
  {
    if ids == [] then p
    else Round(Rounds(p, job, ids[..|ids| - 1], outcomes), job, ids[|ids| - 1], outcomes(ids[|ids| - 1]))
  }

  /** A whole run of the reindex thread for a pending job. */
  function Finished(p: Progress, job: JobId, ids: seq<DocumentId>, outcomes: DocumentId -> Outcome): Progress
    requires job < |p.db.jobs|
  {
    var done := Rounds(p.(db := MarkRunning(p.db, job, |ids|)), job, ids, outcomes);
    done.(db := FinishJob(done.db, job))
  }

  /** A document as a finished job with this outcome for it leaves it. */
  ghost predicate Processed(db: Db, j: Job, d: Document, outcome: Outcome) {
    if Published(db, j.target, j.targetVersion, outcome, 0).Some? then
      && d.status == Indexed && OnePass(d.chunks)
      && d.indexedPreset == Some(j.target) && d.indexVersion == Some(j.targetVersion)
    else d.status == Rejected
  }

  /** What ProcessDocument promises about a call that resets the document is what a finished job leaves. */
  lemma CallIsProcessed(db: Db, j: Job, d: Document, outcome: Outcome, passes: nat)
    requires var pass := Published(db, j.target, j.targetVersion, outcome, passes);
             if pass.None? then d.status == Rejected
             else
               && d.status == Indexed && RowsOf(d.chunks, pass.value)
               && d.indexedPreset == Some(j.target) && d.indexVersion == Some(j.targetVersion)
    ensures Processed(db, j, d, outcome)
  {
    var pass := Published(db, j.target, j.targetVersion, outcome, passes);
    if pass.Some? { assert d.chunks[0].pass == pass.value; }
  }

  function Missed(db: Db, j: Job, outcome: Outcome): (n: nat)
    ensures n <= 1
  {
    if Published(db, j.target, j.targetVersion, outcome, 0).None? then 1 else 0
  }

  /** How many of the documents a job leaves without a published pass. */
  function Failures(db: Db, j: Job, ids: seq<DocumentId>, outcomes: DocumentId -> Outcome): (n: nat)
    ensures n <= |ids|
  {
    if ids == [] then 0
    else Failures(db, j, ids[..|ids| - 1], outcomes) + Missed(db, j, outcomes(ids[|ids| - 1]))
  }

  function Counted(j: Job, done: nat, failures: nat): Job
    requires failures <= done
  {
    j.(completed := j.completed + done - failures, failed := j.failed + failures)
  }

  /** Neither depends on more of the job and the database than the target and the presets. */
  lemma SameTarget(a: Db, j: Job, b: Db, k: Job, d: Document, outcome: Outcome)
    requires a.presets == b.presets && j.target == k.target && j.targetVersion == k.targetVersion
    ensures Missed(a, j, outcome) == Missed(b, k, outcome)
    ensures Processed(a, j, d, outcome) == Processed(b, k, d, outcome)
  {}

  lemma {:induction false} SameTargets(a: Db, j: Job, b: Db, k: Job, ids: seq<DocumentId>, outcomes: DocumentId -> Outcome)
    requires a.presets == b.presets && j.target == k.target && j.targetVersion == k.targetVersion
    ensures Failures(a, j, ids, outcomes) == Failures(b, k, ids, outcomes)
    ensures forall documents :: AllProcessed(b, k, ids, documents, outcomes) ==> AllProcessed(a, j, ids, documents, outcomes)
    decreases |ids|
  {
    if ids != [] { SameTargets(a, j, b, k, ids[..|ids| - 1], outcomes); }
  }

  ghost predicate AllProcessed(db: Db, j: Job, ids: seq<DocumentId>, documents: map<DocumentId, Document>,
                               outcomes: DocumentId -> Outcome)
  {
    forall k :: 0 <= k < |ids| ==>
      ids[k] in documents && Processed(db, j, documents[ids[k]], outcomes(ids[k]))
  }

  lemma OneMoreProcessed(db: Db, j: Job, ids: seq<DocumentId>, id: DocumentId, before: map<DocumentId, Document>,
                         after: map<DocumentId, Document>, outcomes: DocumentId -> Outcome)
    requires AllProcessed(db, j, ids, before, outcomes) && forall k :: 0 <= k < |ids| ==> ids[k] != id
    requires before.Keys == after.Keys && forall d :: d in after && d != id ==> after[d] == before[d]
    requires id in after && Processed(db, j, after[id], outcomes(id))
    ensures AllProcessed(db, j, ids + [id], after, outcomes)
    ensures Failures(db, j, ids + [id], outcomes) == Failures(db, j, ids, outcomes) + Missed(db, j, outcomes(id))
  {
    hide Processed, Missed;
    forall k | 0 <= k < |ids| ensures ids[k] in after && after[ids[k]] == before[ids[k]] {
      assert ids[k] in before.Keys;
    }
    assert (ids + [id])[..|ids|] == ids;
  }

  lemma CountOne(before: Db, j: Job, job: JobId, done: nat, failures: nat, missed: nat)
    requires job < |before.jobs| && failures <= done && missed <= 1
    ensures Counted(Counted(j, done, failures), 1, missed) == Counted(j, done + 1, failures + missed)
    ensures Counted(j, done, failures).target == j.target && Counted(j, done, failures).targetVersion == j.targetVersion
    ensures Counted(j, done, failures).reindexDocuments == j.reindexDocuments
    ensures var k, l := Counted(j, done, failures), Counted(j, done + 1, failures + missed);
            before.jobs[job := k][job := l] == before.jobs[job := l]
  {}

  lemma NoneProcessed(db: Db, j: Job, documents: map<DocumentId, Document>, outcomes: DocumentId -> Outcome)
    ensures AllProcessed(db, j, [], documents, outcomes) && Failures(db, j, [], outcomes) == 0
  {}

  /** What one run of a job to its end makes of the committed state: the listed documents are processed, the
      counters say how many failed, the target and its version are published and maintenance ends. */
  ghost predicate JobRun(before: Db, job: JobId, ids: seq<DocumentId>, outcomes: DocumentId -> Outcome, after: Db)
    requires job < |before.jobs|
  {
    var j := before.jobs[job];
    var failures := Failures(before, j, ids, outcomes);
    && after.presets == before.presets
    && after.documents.Keys == before.documents.Keys
    && AllProcessed(before, j, ids, after.documents, outcomes)
    && (ids == [] ==> after.documents == before.documents)
    && after.configuration == Configuration(j.target, None, j.targetVersion, false)
    && after.jobs == before.jobs[job := Counted(j, |ids|, failures).(
         total := |ids|,
         status := if j.failed + failures != 0 then CompletedWithErrors else Completed)]
  }

  /** What the loop over these documents makes of the committed state. */
  ghost predicate IndexedAgain(before: Db, job: JobId, ids: seq<DocumentId>, outcomes: DocumentId -> Outcome, after: Db)
    requires job < |before.jobs|
  {
    var j := before.jobs[job];
    && after.presets == before.presets && after.configuration == before.configuration
    && after.documents.Keys == before.documents.Keys
    && AllProcessed(before, j, ids, after.documents, outcomes)
    && after.jobs == before.jobs[job := Counted(j, |ids|, Failures(before, j, ids, outcomes))]
  }

  lemma NoneIndexedAgain(before: Db, job: JobId, outcomes: DocumentId -> Outcome)
    requires job < |before.jobs|
    ensures IndexedAgain(before, job, [], outcomes, before)
  {
    var j := before.jobs[job];
    NoneProcessed(before, j, before.documents, outcomes);
    assert before.jobs[job := Counted(j, 0, 0)] == before.jobs;
  }

  /** One more round of the loop, as ReindexDocument leaves it. */
  lemma OneMoreIndexed(before: Db, job: JobId, ids: seq<DocumentId>, i: nat, outcomes: DocumentId -> Outcome,
                       mid: Db, after: Db)
    requires job < |before.jobs| && i < |ids| && NoDuplicates(ids) && ids[i] in mid.documents
    requires IndexedAgain(before, job, ids[..i], outcomes, mid)
    requires after.presets == mid.presets && after.configuration == mid.configuration
    requires after.documents.Keys == mid.documents.Keys
    requires forall d :: d in after.documents && d != ids[i] ==> after.documents[d] == mid.documents[d]
    requires Processed(mid, mid.jobs[job], after.documents[ids[i]], outcomes(ids[i]))
    requires after.jobs == mid.jobs[job := Counted(mid.jobs[job], 1, Missed(mid, mid.jobs[job], outcomes(ids[i])))]
    ensures IndexedAgain(before, job, ids[..i + 1], outcomes, after)
  {
    var j := before.jobs[job];
    var failures, missed := Failures(before, j, ids[..i], outcomes), Missed(before, j, outcomes(ids[i]));
    CountOne(before, j, job, i, failures, missed);
    SameTarget(before, j, mid, mid.jobs[job], after.documents[ids[i]], outcomes(ids[i]));
    hide Processed, AllProcessed, Failures, Missed, Counted;
    OneMoreProcessed(before, j, ids[..i], ids[i], mid.documents, after.documents, outcomes);
    assert ids[..i + 1] == ids[..i] + [ids[i]];
  }

  lemma StagesMakeJobRun(before: Db, job: JobId, ids: seq<DocumentId>, outcomes: DocumentId -> Outcome, begun: Db, done: Db)
    requires job < |before.jobs| && begun == MarkRunning(before, job, |ids|)
    requires if ids == [] then done == begun else IndexedAgain(begun, job, ids, outcomes, done)
    ensures JobRun(before, job, ids, outcomes, FinishJob(done, job))
  {
    var j, running := before.jobs[job], begun.jobs[job];
    SameTargets(before, j, begun, running, ids, outcomes);
    NoneProcessed(before, j, done.documents, outcomes);
    hide AllProcessed, Failures;
    var failures := Failures(before, j, ids, outcomes);
    assert done.jobs[job] == Counted(running, |ids|, failures);
    assert |done.jobs| == |before.jobs| && forall k :: 0 <= k < |done.jobs| && k != job ==> done.jobs[k] == before.jobs[k];
    assert FinishJob(done, job).jobs[job] == Counted(j, |ids|, failures).(
         total := |ids|, status := if j.failed + failures != 0 then CompletedWithErrors else Completed);
  }

  lemma SameJobs(a: Db, b: Db)
    requires JobsConsistent(a) && b.configuration == a.configuration && b.jobs == a.jobs
    ensures JobsConsistent(b) && forall i: JobId :: Unfinished(b, i) <==> Unfinished(a, i)
  {
    assert forall i: JobId :: Unfinished(b, i) <==> Unfinished(a, i);
    forall i: JobId, j: JobId | Unfinished(b, i) && Unfinished(b, j) ensures i == j {
      assert Unfinished(a, i) && Unfinished(a, j);
    }
    if a.configuration.maintenance { var i: JobId :| Unfinished(a, i); assert Unfinished(b, i); }
  }

  class RetrievalStore {
    const presets: map<PresetKey, Preset>
    var active: PresetKey
    var pending: Option<PresetKey>
    var indexVersion: nat
    var maintenance: bool
    var jobs: seq<Job>
    var documents: map<DocumentId, Document>
    var passes: nat

    constructor (presets: map<PresetKey, Preset>, defaultKey: PresetKey)
      ensures State() == Db(presets, Configuration(defaultKey, None, 1, false), [], map[])
    {
      this.presets := presets;
      active, pending, indexVersion, maintenance := defaultKey, None, 1, false;
      jobs, documents, passes := [], map[], 0;
    }

    function State(): Db
      reads this
    {
      Db(presets, Configuration(active, pending, indexVersion, maintenance), jobs, documents)
    }

    method StartPresetChange(target: PresetKey) returns (reply: Reply)
      modifies this
      ensures reply.Accepted? <==> Idle(old(State())) && old(active) in presets && target in presets && target != old(active)
      ensures reply.Accepted? ==> PresetChanged(old(State()), target, State()) && reply.job == |old(jobs)|
      ensures reply == Lifecycle.StartPresetChange(old(State()), target)
      ensures State() == if reply.Accepted? then reply.db else old(State())
      ensures passes == old(passes)
    {
      if maintenance { return Refused(MaintenanceRunning); }
      if HasActiveDocuments(State()) { return Refused(DocumentsActive); }
      if target !in presets { return Refused(PresetNotFound); }
      if active !in presets { return Refused(ActivePresetMissing); }
      if active == target { return Refused(PresetAlreadyActive); }
      var plan := PlanPresetChange(presets[active], presets[target]);
      var id := |jobs|;
      jobs := jobs + [Job(active, target, indexVersion + (if plan.reindexDocuments then 1 else 0),
                          plan.reindexDocuments, false, plan.runtimeSettingsChanged, Pending, 0, 0, 0)];
      if plan.reindexDocuments {
        pending := Some(target);
        maintenance := true;
      } else {
        active := target;
        jobs := jobs[id := jobs[id].(status := Completed)];
      }
      reply := Accepted(State(), id, plan.reindexDocuments);
    }

    method RetryReindexJob(failedJob: JobId) returns (reply: Reply)
      modifies this
      ensures reply.Accepted? <==>
                && Idle(old(State())) && failedJob < |old(jobs)| && old(jobs)[failedJob].target in presets
                && old(jobs)[failedJob].status in {Failed, CompletedWithErrors}
      ensures reply.Accepted? ==> JobRetried(old(State()), failedJob, State()) && reply.job == |old(jobs)|
      ensures reply == Lifecycle.RetryReindexJob(old(State()), failedJob)
      ensures State() == if reply.Accepted? then reply.db else old(State())
      ensures passes == old(passes)
    {
      if maintenance { return Refused(MaintenanceRunning); }
      if HasActiveDocuments(State()) { return Refused(DocumentsActive); }
      if failedJob >= |jobs| { return Refused(JobNotFound); }
      var job := jobs[failedJob];
      if job.status != Failed && job.status != CompletedWithErrors { return Refused(JobNotRetryable); }
      if job.target !in presets { return Refused(PresetNotFound); }
      var id := |jobs|;
      jobs := jobs + [Job(active, job.target, indexVersion + 1, true, job.rebuildVectorIndex,
                          job.runtimeSettingsChanged, Pending, 0, 0, 0)];
      pending := Some(job.target);
      maintenance := true;
      reply := Accepted(State(), id, true);
    }

    method RecoverInterruptedReindexJobs() returns (recovered: seq<JobId>)
      modifies this
      ensures State() == RecoverJobs(old(State()))
      ensures recovered == if LastUnfinished(old(jobs)) < 0 then [] else [LastUnfinished(old(jobs))]
      ensures passes == old(passes)
    {
      var owner := LastUnfinished(jobs);
      if owner < 0 {
        if maintenance || pending != None {
          maintenance := false;
          pending := None;
        }
        return [];
      }
      ghost var before := jobs;
      var i := 0;
      while i < owner
        invariant 0 <= i <= owner && |jobs| == |before|
        invariant forall k :: 0 <= k < |jobs| ==>
          jobs[k] == if k < i && UnfinishedJob(before[k]) then before[k].(status := Failed) else before[k]
        invariant active == old(active) && indexVersion == old(indexVersion)
        invariant documents == old(documents) && passes == old(passes)
      {
        if UnfinishedJob(jobs[i]) { jobs := jobs[i := jobs[i].(status := Failed)]; }
        i := i + 1;
      }
      var job := jobs[owner];
      jobs := jobs[owner := job.(status := Pending, total := 0, completed := 0, failed := 0)];
      pending := Some(job.target);
      maintenance := true;
      recovered := [owner];
      assert jobs == RecoverJobs(old(State())).jobs;
    }

    /** `listed` is the answer of the query for the interrupted documents. */
    method PrepareInterruptedDocuments(listed: seq<DocumentId>) returns (recovered: seq<DocumentId>)
      requires Lists(listed, set id | id in documents && Active(documents[id]))
      modifies this
      ensures documents.Keys == old(documents.Keys)
      ensures forall id :: id in documents ==>
                documents[id] == if old(maintenance) || old(documents)[id].status !in {Uploaded, Processing} then old(documents)[id]
                                 else old(documents)[id].(status := if old(documents)[id].hasFile then Uploaded else Rejected)
      ensures forall id :: id in recovered <==>
                && !old(maintenance) && id in old(documents) && old(documents)[id].hasFile
                && old(documents)[id].status in {Uploaded, Processing}
      ensures State() == RecoverDocuments(old(State()))
      ensures forall id :: id in recovered <==> id in Requeued(old(State()))
      ensures passes == old(passes)
    {
      recovered := [];
      if maintenance { return; }
      ghost var before := documents;
      var i := 0;
      while i < |listed|
        invariant 0 <= i <= |listed|
        invariant documents.Keys == before.Keys
        invariant forall id :: id in before ==>
          documents[id] == if id in listed[..i] then Requeue(before[id]) else before[id]
        invariant forall id :: id in recovered <==> id in listed[..i] && before[id].hasFile
        invariant active == old(active) && indexVersion == old(indexVersion) && pending == old(pending)
        invariant !maintenance && jobs == old(jobs) && passes == old(passes)
      {
        var id := listed[i];
        assert id !in listed[..i];
        if !documents[id].hasFile {
          documents := documents[id := documents[id].(status := Rejected)];
        } else {
          documents := documents[id := documents[id].(status := Uploaded)];
          recovered := recovered + [id];
        }
        assert listed[..i + 1] == listed[..i] + [id];
        i := i + 1;
      }
      assert listed[..i] == listed;
      forall id | id in documents ensures documents[id] == Requeue(before[id]) {
        if Active(before[id]) { assert id in listed; }
      }
      assert documents == RecoverDocuments(old(State())).documents;
    }

    /** Start-up: jobs first, then documents, then the threads to start. */
    method InitializeRuntime(listed: seq<DocumentId>) returns (resumed: seq<JobId>, restarted: seq<DocumentId>)
      requires Lists(listed, set id | id in documents && Active(documents[id]))
      modifies this
      ensures State() == RecoverDocuments(RecoverJobs(old(State())))
      ensures JobsConsistent(State())
      ensures |resumed| <= 1 && (maintenance <==> resumed != []) && (resumed != [] ==> Unfinished(State(), resumed[0]))
      ensures forall id :: id in restarted <==> id in Requeued(RecoverJobs(old(State())))
      ensures resumed == [] || restarted == []
    {
      RecoveryRestoresJobs(State());
      resumed := RecoverInterruptedReindexJobs();
      hide RecoverJobs;
      ghost var recovered := State();
      restarted := PrepareInterruptedDocuments(listed);
      SameJobs(recovered, State());
      if resumed != [] {
        assert Unfinished(State(), resumed[0]);
        assert restarted != [] ==> restarted[0] in restarted;
      } else {
        assert !exists i: JobId :: Unfinished(State(), i);
      }
    }

    /** A row for the upload, then its file; a file that cannot be saved or read takes the row with it. */
    method CreateDocumentFromUpload(id: DocumentId, saved: bool)
      requires id !in documents
      modifies this`documents
      ensures documents == if saved then old(documents)[id := Document(true, Uploaded, None, None, [])] else old(documents)
      ensures State() == if saved then AttachFile(InsertUpload(old(State()), id), id) else old(State())
    {
      documents := documents[id := Document(false, Uploaded, None, None, [])];
      if !saved {
        documents := documents - {id};
        assert documents == old(documents);
        return;
      }
      documents := documents[id := documents[id].(hasFile := true)];
    }

    /** A document that is uploaded or processing cannot be deleted. */
    method DeleteDocument(id: DocumentId) returns (deleted: bool)
      modifies this`documents
      ensures deleted == (id in old(documents) && !Active(old(documents)[id]))
      ensures documents == if deleted then old(documents) - {id} else old(documents)
      ensures State() == if deleted then DeleteDocuments(old(State()), {id}) else old(State())
    {
      if id !in documents || Active(documents[id]) { return false; }
      documents := documents - {id};
      return true;
    }

    /** One uninterrupted call of process_document. */
    method ProcessDocument(id: DocumentId, preset: PresetKey, version: nat, reset: bool, outcome: Outcome)
        returns (succeeded: bool)
      modifies this`documents, this`passes
      ensures id !in old(documents) ==> !succeeded && documents == old(documents)
      ensures id in old(documents) ==>
        var pass := Published(old(State()), preset, version, outcome, old(passes));
        && succeeded == pass.Some?
        && documents.Keys == old(documents.Keys)
        && (forall k :: k in documents && k != id ==> documents[k] == old(documents[k]))
        && documents[id].hasFile == old(documents[id].hasFile)
        && (succeeded ==>
              && documents[id].status == Indexed
              && documents[id].indexedPreset == Some(preset) && documents[id].indexVersion == Some(version)
              && (if reset then RowsOf(documents[id].chunks, pass.value)
                  else exists rows :: RowsOf(rows, pass.value) && documents[id].chunks == old(documents[id].chunks) + rows))
        && (!succeeded ==>
              && documents[id].status == Rejected
              && documents[id].indexedPreset == old(documents[id].indexedPreset)
              && documents[id].indexVersion == old(documents[id].indexVersion)
              && documents[id].chunks == if reset && preset in presets && outcome != RaisesFirst then []
                                         else old(documents[id].chunks))
      ensures State() == Called(old(State()), id, preset, version, reset, outcome, old(passes))
      ensures succeeded == Succeeds(old(State()), id, preset, outcome)
      ensures passes == old(passes) + if succeeded then 1 else 0
    {
      if id !in documents { return false; }
      if preset !in presets || outcome == RaisesFirst {
        documents := documents[id := documents[id].(status := Rejected)];
        return false;
      }
      var d := documents[id];
      if reset { d := d.(chunks := []); }
      documents := documents[id := d.(status := Processing)];
      assert State() == BeginIndexing(old(State()), id, reset);
      if !outcome.Extracted? || outcome.count == 0 {
        documents := documents[id := documents[id].(status := Rejected)];
        return false;
      }
      var pass := Pass(passes, preset, version, outcome.count);
      OnePassOfRows(pass);
      hide PassRows, RowsOf;
      documents := documents[id := documents[id].(status := Indexed, indexedPreset := Some(preset),
                                                  indexVersion := Some(version), chunks := d.chunks + PassRows(pass))];
      passes := passes + 1;
      succeeded := true;
    }

    /** One round of the reindex loop: a document is indexed again and counted. */
    method ReindexDocument(job: JobId, id: DocumentId, outcome: Outcome)
      requires job < |jobs| && jobs[job].reindexDocuments && id in documents
      modifies this`documents, this`passes, this`jobs
      ensures documents.Keys == old(documents.Keys)
      ensures forall d :: d in documents && d != id ==> documents[d] == old(documents[d])
      ensures Processed(old(State()), old(jobs[job]), documents[id], outcome)
      ensures jobs == old(jobs)[job := Counted(old(jobs[job]), 1, Missed(old(State()), old(jobs[job]), outcome))]
      ensures Progress(State(), passes) == Round(Progress(old(State()), old(passes)), job, id, outcome)
    {
      hide Processed, PassRows;
      var j := jobs[job];
      var succeeded := ProcessDocument(id, j.target, j.targetVersion, j.reindexDocuments, outcome);
      CallIsProcessed(old(State()), j, documents[id], outcome, old(passes));
      if succeeded {
        jobs := jobs[job := jobs[job].(completed := jobs[job].completed + 1)];
      } else {
        jobs := jobs[job := jobs[job].(failed := jobs[job].failed + 1)];
      }
    }

    /** The loop of the reindex thread. */
    method ReindexDocuments(job: JobId, ids: seq<DocumentId>, outcomes: DocumentId -> Outcome)
      requires job < |jobs| && jobs[job].reindexDocuments
      requires NoDuplicates(ids) && forall id :: id in ids ==> id in documents
      modifies this`documents, this`passes, this`jobs
      ensures IndexedAgain(old(State()), job, ids, outcomes, State())
      ensures Progress(State(), passes) == Rounds(Progress(old(State()), old(passes)), job, ids, outcomes)
    {
      ghost var before, start := State(), Progress(State(), passes);
      hide Processed, IndexedAgain, Missed, Round;
      NoneIndexedAgain(before, job, outcomes);
      assert ids[..0] == [];
      var i := 0;
      while i < |ids|
        invariant 0 <= i <= |ids| && documents.Keys == before.documents.Keys
        invariant presets == before.presets && job < |before.jobs| == |jobs| && jobs[job].reindexDocuments
        invariant IndexedAgain(before, job, ids[..i], outcomes, State())
        invariant Progress(State(), passes) == Rounds(start, job, ids[..i], outcomes)
      {
        assert ids[..i + 1][..i] == ids[..i];
        ghost var reached := State();
        ReindexDocument(job, ids[i], outcomes(ids[i]));
        OneMoreIndexed(before, job, ids, i, outcomes, reached, State());
        i := i + 1;
      }
      assert ids[..i] == ids;
    }

    method PublishJob(job: JobId)
      requires job < |jobs|
      modifies this`active, this`pending, this`indexVersion, this`maintenance, this`jobs
      ensures State() == FinishJob(old(State()), job)
    {
      active := jobs[job].target;
      pending := None;
      indexVersion := jobs[job].targetVersion;
      maintenance := false;
      jobs := jobs[job := jobs[job].(status := if jobs[job].failed != 0 then CompletedWithErrors else Completed)];
    }

    /** The exception handler of the reindex thread. */
    method FailJob(job: JobId)
      requires job < |jobs|
      modifies this`pending, this`maintenance, this`jobs
      ensures JobFailed(old(State()), job, State()) && State() == AbortJob(old(State()), job)
    {
      jobs := jobs[job := jobs[job].(status := Failed)];
      pending := None;
      maintenance := false;
    }

    /** One uninterrupted run of the reindex thread; `order` is the answer of the query for all documents. */
    method RunReindexJob(job: JobId, order: seq<DocumentId>, outcomes: DocumentId -> Outcome)
      requires Lists(order, documents.Keys)
      modifies this
      ensures !(job < |old(jobs)| && old(jobs[job].status) == Pending) ==> State() == old(State())
      ensures job < |old(jobs)| && old(jobs[job].status) == Pending ==>
                var ids := if old(jobs[job]).reindexDocuments then order else [];
                && JobRun(old(State()), job, ids, outcomes, State())
                && Progress(State(), passes) == Finished(Progress(old(State()), old(passes)), job, ids, outcomes)
    {
      if job >= |jobs| || jobs[job].status != Pending { return; }
      var ids := if jobs[job].reindexDocuments then order else [];
      jobs := jobs[job := jobs[job].(status := Running, total := |ids|)];
      ghost var begun := State();
      NoneProcessed(begun, jobs[job], documents, outcomes);
      hide AllProcessed, Failures, Counted, JobRun;
      if ids != [] { ReindexDocuments(job, ids, outcomes); }
      StagesMakeJobRun(old(State()), job, ids, outcomes, begun, State());
      PublishJob(job);
    }
  }
}
