/**
 A run in which the searchable documents are not uniform: a reindex job that ends by exception releases the
 configuration but leaves the documents it has already processed at the target version. Exactly when that
 happens is stated in ProtocolTheorems.
 */
module AbortedJob {
  import opened Prelude
  import opened Lifecycle
  import opened Protocol
  import opened ProtocolInvariant
  import opened ProtocolTheorems

  lemma Then(init: System, steps: seq<Step>, s: System, step: Step) returns (t: System)
    requires Run(init, steps) == Some(s) && Apply(s, step).Some?
    ensures Run(init, steps + [step]) == Some(t) && Apply(s, step) == Some(t)
  {
    RunLast(init, steps, step);
    t := Apply(s, step).value;
  }

  /** A first start on an empty database. */
  lemma Boot(init: System) returns (steps: seq<Step>, s: System)
    requires Initial(init)
    ensures Run(init, steps) == Some(s) && s == init.(phase := Serving)
    ensures forall k :: 0 <= k < |steps| ==> !steps[k].ReindexerAbort?
  {
    assert Run(init, []) == Some(init);
    hide Run;
    NothingToRecover(init);
    hide Apply;
    var a := Then(init, [], init, RecoverJobTable);
    s := Then(init, [] + [RecoverJobTable], a, RecoverDocumentTable(map[], 0));
    steps := [] + [RecoverJobTable] + [RecoverDocumentTable(map[], 0)];
  }

  lemma NothingToRecover(init: System)
    requires Initial(init)
    ensures var a := init.(phase := JobsRecovered(None));
            Apply(init, RecoverJobTable) == Some(a) && Apply(a, RecoverDocumentTable(map[], 0)) == Some(init.(phase := Serving))
  {
    assert RecoverJobs(init.db) == init.db;
    assert RecoverDocuments(init.db).documents == map[];
    assert SpawnedFor(map[], Requeued(init.db));
  }

  /** A document is uploaded and its indexing fails. */
  lemma UploadFails(init: System, steps: seq<Step>, s: System) returns (more: seq<Step>, t: System)
    requires Run(init, steps) == Some(s) && s == init.(phase := Serving) && Initial(init)
    ensures Run(init, more) == Some(t)
    ensures t == s.(db := s.db.(documents := map[1 := Document(true, Rejected, None, None, [])]))
  {
    hide Run;
    var a := Then(init, steps, s, UploadInsert(1));
    var b := Then(init, steps + [UploadInsert(1)], a, UploadAccept(1, Some(0)));
    more := steps + [UploadInsert(1)] + [UploadAccept(1, Some(0))] + [IndexerFail(0)];
    t := Then(init, steps + [UploadInsert(1)] + [UploadAccept(1, Some(0))], b, IndexerFail(0));
    assert t.db.documents == map[1 := Document(true, Rejected, None, None, [])];
    assert t.indexers == map[] && t.uploads == {};
  }

  /** A preset change to `b` opens a job. */
  lemma JobOpens(init: System, steps: seq<Step>, s: System, b: PresetKey) returns (more: seq<Step>, t: System)
    requires Run(init, steps) == Some(s) && s.phase == Serving && s.reindexers == map[] && s.db.jobs == []
    requires s.db.documents == map[1 := Document(true, Rejected, None, None, [])]
    requires !s.db.configuration.maintenance && s.db.configuration.active in s.db.presets && b in s.db.presets
    requires !SameChunking(s.db, s.db.configuration.active, b)
    ensures Run(init, more) == Some(t)
    ensures t.db.documents == s.db.documents && t.db.presets == s.db.presets
    ensures t.db.configuration == s.db.configuration.(pending := Some(b), maintenance := true)
    ensures |t.db.jobs| == 1 && t.db.jobs[0].target == b && t.db.jobs[0].targetVersion == s.db.configuration.indexVersion + 1
    ensures t.db.jobs[0].reindexDocuments && t.db.jobs[0].status == Pending && t.reindexers == map[0 := JobTask(0, ToStart)]
  {
    hide Run;
    t := Then(init, steps, s, ChangePreset(b, Some(0)));
    more := steps + [ChangePreset(b, Some(0))];
  }

  /** Its thread starts. */
  lemma JobStarts(init: System, steps: seq<Step>, s: System) returns (more: seq<Step>, t: System)
    requires Run(init, steps) == Some(s) && s.reindexers == map[0 := JobTask(0, ToStart)] && s.db.documents.Keys == {1}
    requires |s.db.jobs| == 1 && s.db.jobs[0].reindexDocuments && s.db.jobs[0].status == Pending
    ensures Run(init, more) == Some(t)
    ensures t.db == s.db.(jobs := t.db.jobs) && |t.db.jobs| == 1
    ensures t.db.jobs[0].target == s.db.jobs[0].target && t.db.jobs[0].targetVersion == s.db.jobs[0].targetVersion
    ensures t.reindexers == map[0 := JobTask(0, NextDocument([1]))]
  {
    hide Run;
    assert Lists([1], s.db.documents.Keys);
    t := Then(init, steps, s, ReindexerStart(0, [1]));
    more := steps + [ReindexerStart(0, [1])];
  }

  /** The job indexes the document and then ends by exception. */
  lemma JobAborts(init: System, steps: seq<Step>, s: System) returns (more: seq<Step>, t: System)
    requires Run(init, steps) == Some(s) && s.reindexers == map[0 := JobTask(0, NextDocument([1]))]
    requires |s.db.jobs| == 1 && s.db.jobs[0].target in s.db.presets && 1 in s.db.documents
    ensures Run(init, more) == Some(t) && more != [] && more[|more| - 1] == ReindexerAbort(0)
    ensures t.db.configuration == s.db.configuration.(pending := None, maintenance := false)
    ensures 1 in t.db.documents && t.db.documents[1].status == Indexed
    ensures t.db.documents[1].indexVersion == Some(s.db.jobs[0].targetVersion)
  {
    hide Run;
    var a := Then(init, steps, s, ReindexerBegin(0));
    var b := Then(init, steps + [ReindexerBegin(0)], a, ReindexerPublish(0, 1));
    t := Then(init, steps + [ReindexerBegin(0)] + [ReindexerPublish(0, 1)], b, ReindexerAbort(0));
    more := steps + [ReindexerBegin(0)] + [ReindexerPublish(0, 1)] + [ReindexerAbort(0)];
  }

  /** From every first start with two presets of different chunking there is a run after which maintenance is
      over and a searchable document is not at the current index version. */
  lemma AbortLeavesMixedVersions(init: System, b: PresetKey) returns (steps: seq<Step>)
    requires Initial(init) && b in init.db.presets && !SameChunking(init.db, init.db.configuration.active, b)
    ensures Run(init, steps).Some? && steps != [] && steps[|steps| - 1] == ReindexerAbort(0)
    ensures var db := Run(init, steps).value.db; !db.configuration.maintenance && !Uniform(db)
  {
    var s;
    steps, s := Boot(init);
    steps, s := UploadFails(init, steps, s);
    steps, s := JobOpens(init, steps, s, b);
    steps, s := JobStarts(init, steps, s);
    steps, s := JobAborts(init, steps, s);
    hide Run, Apply;
    assert s.db.documents[1].indexVersion != Some(s.db.configuration.indexVersion);
  }
}
