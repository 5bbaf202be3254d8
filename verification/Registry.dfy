/**
 The endpoint registry: one JSON file shared by several processes, replaced under a file lock by callers that
 name the revision they read, and cached as a validated snapshot per process. Reading, credentials and the
 file system may fail at any step and processes may die; nothing else edits the file.
 */
module Registry {
  import opened Prelude

  type Bytes = string
  type Worker = nat
  type ProcessId = nat

  datatype Endpoint = Endpoint(key: string, enabled: bool, supportsVision: bool)

  datatype Configuration = Configuration(defaultKey: string, endpoints: seq<Endpoint>)

  function Find(endpoints: seq<Endpoint>, key: string, enabledOnly: bool): Option<Endpoint> {
    if endpoints == [] then None
    else if endpoints[0].key == key && (endpoints[0].enabled || !enabledOnly) then Some(endpoints[0])
    else Find(endpoints[1..], key, enabledOnly)
  }

  ghost predicate UniqueKeys(endpoints: seq<Endpoint>) {
    forall i, j :: 0 <= i < j < |endpoints| ==> endpoints[i].key != endpoints[j].key
  }

  /** The model validator: endpoints, unique keys, and a default that exists and is enabled. */
  ghost predicate Valid(c: Configuration) {
    && c.endpoints != [] && UniqueKeys(c.endpoints)
    && Find(c.endpoints, c.defaultKey, false).Some? && Find(c.endpoints, c.defaultKey, false).value.enabled
  }

  /** Parsing (with validation), serializing and the revision of the bytes. */
  datatype Format = Format(parse: Bytes -> Option<Configuration>, serialize: Configuration -> Bytes, revision: Bytes -> string)

  /** What is parsed is valid, and a valid configuration that is written reads back. */
  ghost predicate Strict(f: Format) {
    && (forall b :: f.parse(b).Some? ==> Valid(f.parse(b).value))
    && (forall c :: Valid(c) ==> f.parse(f.serialize(c)) == Some(c))
  }

  ghost predicate Injective(f: Format) {
    forall a, b :: f.revision(a) == f.revision(b) ==> a == b
  }

  datatype Snapshot = Snapshot(revision: string, configuration: Configuration)

  // ---- the shared state ----

  datatype File = File(bytes: Bytes, stamp: nat)

  /** The signature that reveals a replaced or changed file: that of the JSON and that of the master key. */
  datatype Signature = Signature(json: nat, masterKey: nat)

  datatype Cache = Cache(snapshot: Option<Snapshot>, observed: Option<Signature>)

  /** A replace call: waiting for the mutex with the lock held, checked against the file, ready to write, and
      written but not published yet. */
  datatype WriterStage =
    | Locked(expected: string, configuration: Configuration)
    | Checked(expected: string, configuration: Configuration)
    | Built(expected: string, candidate: Snapshot)
    | Written(candidate: Snapshot)

  /** A snapshot call that found the file changed, and then one that has read it (at some stamp). */
  datatype ReaderStage = Looked(signature: Signature) | Loaded(snapshot: Snapshot, stamp: nat)

  /** One replacement of the file: the revision the caller expected, what was there, and what it wrote. */
  datatype Write = Write(expected: string, overwritten: Bytes, written: Bytes)

  datatype State = State(
    file: File,
    masterKey: nat,
    lock: Option<Worker>,
    mutexes: map<ProcessId, Worker>,
    writers: map<Worker, WriterStage>,
    readers: map<Worker, ReaderStage>,
    caches: map<ProcessId, Cache>,
    history: seq<Write>)

  datatype Step =
    | Acquire(w: Worker, configuration: Configuration, expected: string)
    | Check(w: Worker)
    | Build(w: Worker, unlocks: bool, accepted: bool)
    | Replace(w: Worker)
    | Publish(w: Worker)
    | Fail(w: Worker)
    | Look(w: Worker)
    | Read(w: Worker, unlocks: bool)
    | PublishRead(w: Worker)
    | Kill(p: ProcessId)
    | KeyChange

  /** `home` is the process of a worker thread; `captions` says whether the default endpoint must see pictures. */
  datatype Setup = Setup(format: Format, home: Worker -> ProcessId, captions: bool)

  function SignatureOf(s: State): Signature {
    Signature(s.file.stamp, s.masterKey)
  }

  function CacheOf(s: State, p: ProcessId): Cache {
    if p in s.caches then s.caches[p] else Cache(None, None)
  }

  /** Credentials resolve, and the default endpoint can do what captioning needs. */
  predicate Resolves(setup: Setup, c: Configuration, unlocks: bool) {
    unlocks && (setup.captions ==>
                  Find(c.endpoints, c.defaultKey, false).Some? && Find(c.endpoints, c.defaultKey, false).value.supportsVision)
  }

  function WriterEnds(setup: Setup, s: State, w: Worker): State {
    s.(lock := None, writers := s.writers - {w}, mutexes := Released(setup, s, w))
  }

  function ReaderEnds(setup: Setup, s: State, w: Worker): State {
    s.(readers := s.readers - {w}, mutexes := Released(setup, s, w))
  }

  function Released(setup: Setup, s: State, w: Worker): map<ProcessId, Worker> {
    var p := setup.home(w);
    if p in s.mutexes && s.mutexes[p] == w then s.mutexes - {p} else s.mutexes
  }

  function WriterStep(setup: Setup, s: State, step: Step): Option<State>
    requires step.Check? || step.Build? || step.Replace? || step.Publish? || step.Fail?
  {
    var w := step.w;
    if w !in s.writers then None
    else
      var p, stage := setup.home(w), s.writers[w];
      match step
      case Check(_) =>
        if !stage.Locked? || p in s.mutexes then None
        else if setup.format.parse(s.file.bytes) == None || setup.format.revision(s.file.bytes) != stage.expected then
          Some(WriterEnds(setup, s, w))
        else
          Some(s.(mutexes := s.mutexes[p := w], writers := s.writers[w := Checked(stage.expected, stage.configuration)]))
      case Build(_, unlocks, accepted) =>
        if !stage.Checked? then None
        else if !Resolves(setup, stage.configuration, unlocks) || !accepted then Some(WriterEnds(setup, s, w))
        else
          var revision := setup.format.revision(setup.format.serialize(stage.configuration));
          Some(s.(writers := s.writers[w := Built(stage.expected, Snapshot(revision, stage.configuration))]))
      case Replace(_) =>
        if !stage.Built? then None
        else
          var bytes := setup.format.serialize(stage.candidate.configuration);
          Some(s.(file := File(bytes, s.file.stamp + 1), writers := s.writers[w := Written(stage.candidate)],
                  history := s.history + [Write(stage.expected, s.file.bytes, bytes)]))
      case Publish(_) =>
        if !stage.Written? then None
        else
          Some(WriterEnds(setup, s.(caches := s.caches[p := Cache(Some(stage.candidate), Some(SignatureOf(s)))]), w))
      case Fail(_) => Some(WriterEnds(setup, s, w))
  }

  function ReaderStep(setup: Setup, s: State, step: Step): Option<State>
    requires step.Look? || step.Read? || step.PublishRead?
  {
    var w := step.w;
    var p := setup.home(w);
    var cache := CacheOf(s, p);
    match step
    case Look(_) =>
      if w in s.writers || w in s.readers || p in s.mutexes then None
      else if cache.snapshot.Some? && cache.observed == Some(SignatureOf(s)) then Some(s)
      else Some(s.(mutexes := s.mutexes[p := w], readers := s.readers[w := Looked(SignatureOf(s))]))
    case Read(_, unlocks) =>
      if w !in s.readers || !s.readers[w].Looked? then None
      else
        var c := setup.format.parse(s.file.bytes);
        if c == None || !Resolves(setup, c.value, unlocks) then
          if cache.snapshot == None then Some(ReaderEnds(setup, s, w))
          else
            Some(ReaderEnds(setup, s.(caches := s.caches[p := cache.(observed := Some(s.readers[w].signature))]), w))
        else
          Some(s.(readers := s.readers[w := Loaded(Snapshot(setup.format.revision(s.file.bytes), c.value), s.file.stamp)]))
    case PublishRead(_) =>
      if w !in s.readers || !s.readers[w].Loaded? then None
      else
        Some(ReaderEnds(setup, s.(caches := s.caches[p := Cache(Some(s.readers[w].snapshot), Some(SignatureOf(s)))]), w))
  }

  ghost function Apply(setup: Setup, s: State, step: Step): Option<State> {
    match step
    case Acquire(w, configuration, expected) =>
      if s.lock != None || w in s.writers || w in s.readers || !Valid(configuration) then None
      else Some(s.(lock := Some(w), writers := s.writers[w := Locked(expected, configuration)]))
    case Kill(p) =>
      // The kernel drops the file lock of a process that dies; its threads, mutex and cache are gone.
      Some(s.(lock := if s.lock.Some? && setup.home(s.lock.value) == p then None else s.lock,
              mutexes := s.mutexes - {p}, caches := s.caches - {p},
              writers := map w | w in s.writers && setup.home(w) != p :: s.writers[w],
              readers := map w | w in s.readers && setup.home(w) != p :: s.readers[w]))
    case KeyChange => Some(s.(masterKey := s.masterKey + 1))
    case Look(_) => ReaderStep(setup, s, step)
    case Read(_, _) => ReaderStep(setup, s, step)
    case PublishRead(_) => ReaderStep(setup, s, step)
    case _ => WriterStep(setup, s, step)
  }

  ghost function Run(setup: Setup, s: State, steps: seq<Step>): Option<State> {
    if steps == [] then Some(s)
    else
      var r := Run(setup, s, steps[..|steps| - 1]);
      if r == None then None else Apply(setup, r.value, steps[|steps| - 1])
  }

  ghost predicate Initial(s: State) {
    s.lock == None && s.mutexes == map[] && s.writers == map[] && s.readers == map[] && s.caches == map[] && s.history == []
  }

  // ---- what every run keeps ----

  ghost predicate Good(setup: Setup, snapshot: Snapshot) {
    && Valid(snapshot.configuration)
    && (setup.captions ==>
          Find(snapshot.configuration.endpoints, snapshot.configuration.defaultKey, false).value.supportsVision)
  }

  /** The snapshot is what these bytes say. */
  ghost predicate OfContent(setup: Setup, snapshot: Snapshot, bytes: Bytes) {
    snapshot.revision == setup.format.revision(bytes) && setup.format.parse(bytes) == Some(snapshot.configuration)
  }

  /** What the first k writes left in the file. */
  function Left(first: Bytes, history: seq<Write>, k: nat): Bytes
    requires k <= |history|
  {
    if k == 0 then first else history[k - 1].written
  }

  ghost predicate Linked(setup: Setup, left: Bytes, write: Write) {
    write.overwritten == left && setup.format.revision(left) == write.expected
  }

  /** Each write overwrote what the write before left, and its expected revision is that of what it overwrote. */
  ghost predicate Chain(setup: Setup, first: Bytes, history: seq<Write>, now: Bytes) {
    && now == Left(first, history, |history|)
    && (forall k :: 0 <= k < |history| ==> Linked(setup, Left(first, history, k), history[k]))
  }

  /** The snapshot is good and is what the file said at some time. */
  ghost predicate Seen(setup: Setup, first: Bytes, history: seq<Write>, snapshot: Snapshot) {
    Good(setup, snapshot) && exists k: nat :: k <= |history| && OfContent(setup, snapshot, Left(first, history, k))
  }

  /** Only the holder of the lock is in a replace call, and from its check on the file is as it expects. */
  ghost predicate WritersOk(setup: Setup, s: State) {
    forall w :: w in s.writers ==> s.lock == Some(w) && WriterOk(setup, s.file.bytes, s.writers[w])
  }

  ghost predicate WriterOk(setup: Setup, bytes: Bytes, stage: WriterStage) {
    match stage
    case Locked(_, c) => Valid(c)
    case Checked(expected, c) => Valid(c) && setup.format.revision(bytes) == expected
    case Built(expected, candidate) =>
      && Good(setup, candidate) && setup.format.revision(bytes) == expected
      && candidate.revision == setup.format.revision(setup.format.serialize(candidate.configuration))
    case Written(candidate) => Good(setup, candidate) && OfContent(setup, candidate, bytes)
  }

  ghost predicate SnapshotsSeen(setup: Setup, first: Bytes, s: State) {
    && (forall p :: p in s.caches && s.caches[p].snapshot.Some? ==> Seen(setup, first, s.history, s.caches[p].snapshot.value))
    && (forall w :: w in s.readers && s.readers[w].Loaded? ==> Seen(setup, first, s.history, s.readers[w].snapshot))
  }

  ghost predicate Inv(setup: Setup, first: Bytes, s: State) {
    WritersOk(setup, s) && SnapshotsSeen(setup, first, s) && Chain(setup, first, s.history, s.file.bytes)
  }

  lemma LeftStays(first: Bytes, history: seq<Write>, write: Write)
    ensures forall k: nat :: k <= |history| ==> Left(first, history + [write], k) == Left(first, history, k)
    ensures Left(first, history + [write], |history| + 1) == write.written
  {}

  lemma ChainGrows(setup: Setup, first: Bytes, history: seq<Write>, now: Bytes, write: Write)
    requires Chain(setup, first, history, now) && Linked(setup, now, write)
    ensures Chain(setup, first, history + [write], write.written)
  {
    var longer := history + [write];
    LeftStays(first, history, write);
    hide Linked, Left;
    forall k | 0 <= k < |longer| ensures Linked(setup, Left(first, longer, k), longer[k]) {
      assert Left(first, longer, k) == Left(first, history, k);
    }
  }

  lemma SeenStays(setup: Setup, first: Bytes, history: seq<Write>, write: Write, snapshot: Snapshot)
    requires Seen(setup, first, history, snapshot)
    ensures Seen(setup, first, history + [write], snapshot)
  {
    hide OfContent, Good;
    var k: nat :| k <= |history| && OfContent(setup, snapshot, Left(first, history, k));
    assert Left(first, history + [write], k) == Left(first, history, k);
  }

  lemma CurrentIsSeen(setup: Setup, first: Bytes, s: State, snapshot: Snapshot)
    requires Chain(setup, first, s.history, s.file.bytes) && Good(setup, snapshot) && OfContent(setup, snapshot, s.file.bytes)
    ensures Seen(setup, first, s.history, snapshot)
  {
    hide Good, Linked;
  }

  lemma SnapshotsStaySeen(setup: Setup, first: Bytes, s: State, t: State, write: Write)
    requires SnapshotsSeen(setup, first, s)
    requires t.caches == s.caches && t.readers == s.readers && t.history == s.history + [write]
    ensures SnapshotsSeen(setup, first, t)
  {
    hide Seen;
    forall p | p in s.caches && s.caches[p].snapshot.Some? ensures Seen(setup, first, t.history, s.caches[p].snapshot.value) {
      SeenStays(setup, first, s.history, write, s.caches[p].snapshot.value);
    }
    forall v | v in s.readers && s.readers[v].Loaded? ensures Seen(setup, first, t.history, s.readers[v].snapshot) {
      SeenStays(setup, first, s.history, write, s.readers[v].snapshot);
    }
  }

  lemma ReplaceKeepsInv(setup: Setup, first: Bytes, s: State, w: Worker)
    requires Strict(setup.format) && Inv(setup, first, s) && WriterStep(setup, s, Replace(w)).Some?
    ensures Inv(setup, first, WriterStep(setup, s, Replace(w)).value)
  {
    hide Valid, Chain, Seen;
    var t := WriterStep(setup, s, Replace(w)).value;
    var write := t.history[|s.history|];
    assert WriterOk(setup, s.file.bytes, s.writers[w]);
    ChainGrows(setup, first, s.history, s.file.bytes, write);
    SnapshotsStaySeen(setup, first, s, t, write);
    hide SnapshotsSeen, Linked;
    assert forall v :: v in s.writers ==> v == w;
    assert WritersOk(setup, t);
  }

  lemma WriterKeepsInv(setup: Setup, first: Bytes, s: State, step: Step)
    requires Inv(setup, first, s)
    requires step.Check? || step.Build? || step.Publish? || step.Fail?
    requires WriterStep(setup, s, step).Some?
    ensures Inv(setup, first, WriterStep(setup, s, step).value)
  {
    hide Valid, Seen, Chain;
    var t, w := WriterStep(setup, s, step).value, step.w;
    assert WriterOk(setup, s.file.bytes, s.writers[w]);
    assert forall v :: v in s.writers ==> v == w;
    if step.Publish? { CurrentIsSeen(setup, first, s, s.writers[w].candidate); }
    assert WritersOk(setup, t);
  }

  lemma ReaderKeepsInv(setup: Setup, first: Bytes, s: State, step: Step)
    requires Strict(setup.format) && Inv(setup, first, s)
    requires step.Look? || step.Read? || step.PublishRead?
    requires ReaderStep(setup, s, step).Some?
    ensures Inv(setup, first, ReaderStep(setup, s, step).value)
  {
    hide Valid, Chain, Seen, WriterOk;
    var t := ReaderStep(setup, s, step).value;
    if step.Read? && step.w in t.readers { CurrentIsSeen(setup, first, s, t.readers[step.w].snapshot); }
  }

  lemma OtherKeepsInv(setup: Setup, first: Bytes, s: State, step: Step)
    requires Inv(setup, first, s) && (step.Acquire? || step.Kill? || step.KeyChange?) && Apply(setup, s, step).Some?
    ensures Inv(setup, first, Apply(setup, s, step).value)
  {
    hide Valid, Chain, Seen;
    if step.Acquire? { assert s.writers == map[] by { assert forall w :: w !in s.writers; } }
  }

  lemma StepKeepsInv(setup: Setup, first: Bytes, s: State, step: Step)
    requires Strict(setup.format) && Inv(setup, first, s) && Apply(setup, s, step).Some?
    ensures Inv(setup, first, Apply(setup, s, step).value)
  {
    hide Inv, Strict;
    if step.Look? || step.Read? || step.PublishRead? {
      ReaderKeepsInv(setup, first, s, step);
    } else if step.Acquire? || step.Kill? || step.KeyChange? {
      OtherKeepsInv(setup, first, s, step);
    } else if step.Replace? {
      ReplaceKeepsInv(setup, first, s, step.w);
    } else {
      WriterKeepsInv(setup, first, s, step);
    }
  }

  lemma {:induction false} RunKeepsInv(setup: Setup, init: State, steps: seq<Step>)
    requires Strict(setup.format) && Initial(init) && Run(setup, init, steps).Some?
    ensures Inv(setup, init.file.bytes, Run(setup, init, steps).value)
    decreases |steps|
  {
    if steps != [] {
      RunKeepsInv(setup, init, steps[..|steps| - 1]);
      StepKeepsInv(setup, init.file.bytes, Run(setup, init, steps[..|steps| - 1]).value, steps[|steps| - 1]);
      hide Apply, Inv;
    }
  }

  // ---- the theorems ----

  /** No update is lost: a successful replacement overwrote exactly the content its caller had read, and that
      is what the replacement before it left. */
  lemma NoUpdateIsLost(setup: Setup, init: State, steps: seq<Step>, k: nat, readByCaller: Bytes)
    requires Strict(setup.format) && Injective(setup.format) && Initial(init) && Run(setup, init, steps).Some?
    requires var history := Run(setup, init, steps).value.history;
             k < |history| && setup.format.revision(readByCaller) == history[k].expected
    ensures var history := Run(setup, init, steps).value.history;
            history[k].overwritten == readByCaller == Left(init.file.bytes, history, k)
  {
    RunKeepsInv(setup, init, steps);
    var history := Run(setup, init, steps).value.history;
    hide Run;
    assert Linked(setup, Left(init.file.bytes, history, k), history[k]);
  }

  lemma {:induction false} FindEnabled(endpoints: seq<Endpoint>, key: string)
    requires Find(endpoints, key, false).Some? && Find(endpoints, key, false).value.enabled
    ensures Find(endpoints, key, true) == Find(endpoints, key, false)
    ensures Find(endpoints, key, true).value.key == key && Find(endpoints, key, true).value in endpoints
    decreases |endpoints|
  {
    if endpoints[0].key != key { FindEnabled(endpoints[1..], key); }
  }

  /** Every snapshot a process can serve is what the file said at some time, has unique keys, and offers its
      default among the enabled endpoints. */
  lemma ServedSnapshotsAreGood(setup: Setup, init: State, steps: seq<Step>, p: ProcessId)
    requires Strict(setup.format) && Initial(init) && Run(setup, init, steps).Some?
    requires CacheOf(Run(setup, init, steps).value, p).snapshot.Some?
    ensures var s := Run(setup, init, steps).value;
            var c := CacheOf(s, p).snapshot.value.configuration;
            && Seen(setup, init.file.bytes, s.history, CacheOf(s, p).snapshot.value)
            && UniqueKeys(c.endpoints)
            && Find(c.endpoints, c.defaultKey, true).Some?
            && Find(c.endpoints, c.defaultKey, true).value.key == c.defaultKey
            && Find(c.endpoints, c.defaultKey, true).value.enabled
  {
    RunKeepsInv(setup, init, steps);
    var s := Run(setup, init, steps).value;
    var c := CacheOf(s, p).snapshot.value.configuration;
    hide Run, Chain, WritersOk;
    assert Seen(setup, init.file.bytes, s.history, s.caches[p].snapshot.value);
    FindEnabled(c.endpoints, c.defaultKey);
  }

  /** The file changes only when a caller that passed its check replaces it, the snapshot of a process only
      when one of its own threads publishes or reloads, or with the process: a conflict, a failed validation
      and a failure before the replacement change neither. */
  lemma OnlyReplacementsChangeTheFile(setup: Setup, first: Bytes, s: State, step: Step, p: ProcessId)
    requires Inv(setup, first, s) && Apply(setup, s, step).Some?
    ensures var t := Apply(setup, s, step).value;
            && (t.file != s.file ==>
                  && step.Replace? && s.lock == Some(step.w) && step.w in s.writers && s.writers[step.w].Built?
                  && setup.format.revision(s.file.bytes) == s.writers[step.w].expected)
            && (CacheOf(t, p).snapshot != CacheOf(s, p).snapshot ==>
                  || step == Kill(p)
                  || (step.Publish? && setup.home(step.w) == p && s.writers[step.w].Written?)
                  || (step.PublishRead? && setup.home(step.w) == p))
  {
    hide Chain, SnapshotsSeen;
    if step.Replace? { assert WriterOk(setup, s.file.bytes, s.writers[step.w]); }
  }

  // ---- calls that end without a replacement ----

  /** A step of the replace call of thread w. */
  predicate OfCall(step: Step, w: Worker) {
    && (step.Acquire? || step.Check? || step.Build? || step.Replace? || step.Publish? || step.Fail?)
    && step.w == w
  }

  lemma {:induction false} NeverWritten(setup: Setup, s: State, steps: seq<Step>, w: Worker)
    requires w !in s.writers && Run(setup, s, steps).Some? && forall k :: 0 <= k < |steps| ==> steps[k] != Replace(w)
    ensures var t := Run(setup, s, steps).value; w in t.writers ==> !t.writers[w].Written?
    decreases |steps|
  {
    if steps != [] {
      NeverWritten(setup, s, steps[..|steps| - 1], w);
      NotWrittenYet(setup, Run(setup, s, steps[..|steps| - 1]).value, steps[|steps| - 1], w);
      hide Apply;
    }
  }

  lemma NotWrittenYet(setup: Setup, s: State, step: Step, w: Worker)
    requires Apply(setup, s, step).Some? && step != Replace(w) && (w in s.writers ==> !s.writers[w].Written?)
    ensures var t := Apply(setup, s, step).value; w in t.writers ==> !t.writers[w].Written?
  {
    hide Valid;
  }

  /** In every run: as long as a thread does not replace the file, none of the steps of its replace calls changes
      the file, a snapshot or the history, however the calls end and whatever others do in between. */
  lemma CallsWithoutReplacementChangeNothing(setup: Setup, init: State, steps: seq<Step>, w: Worker, k: nat, a: State, b: State)
    requires w !in init.writers && k < |steps| && OfCall(steps[k], w)
    requires forall i :: 0 <= i < |steps| ==> steps[i] != Replace(w)
    requires Run(setup, init, steps[..k]) == Some(a) && Apply(setup, a, steps[k]) == Some(b)
    ensures b.file == a.file && b.caches == a.caches && b.history == a.history
  {
    hide Valid;
    NeverWritten(setup, init, steps[..k], w);
    hide Run;
  }

  /** The call of thread w is on before each of these steps, and none of them is its replacement. */
  ghost predicate DuringACall(setup: Setup, s: State, steps: seq<Step>, w: Worker) {
    forall k :: 0 <= k < |steps| ==>
      steps[k] != Replace(w) && (Run(setup, s, steps[..k]).Some? ==> w in Run(setup, s, steps[..k]).value.writers)
  }

  /** In every run: from the moment a call holds the lock until the step that ends it, nobody but the call itself
      changes the file; if it does not, the file is at the end what the call found. */
  lemma {:induction false} FileIsStillDuringACall(setup: Setup, first: Bytes, s: State, steps: seq<Step>, w: Worker)
    requires Strict(setup.format) && Inv(setup, first, s) && Run(setup, s, steps).Some? && DuringACall(setup, s, steps, w)
    ensures Inv(setup, first, Run(setup, s, steps).value) && Run(setup, s, steps).value.file == s.file
    decreases |steps|
  {
    if steps != [] {
      var n := |steps| - 1;
      EarlierDuringTheCall(setup, s, steps, w);
      FileIsStillDuringACall(setup, first, s, steps[..n], w);
      var before := Run(setup, s, steps[..n]).value;
      assert w in before.writers && steps[n] != Replace(w);
      hide DuringACall, Inv;
      StepKeepsInv(setup, first, before, steps[n]);
      OnlyTheHolderReplaces(setup, first, before, steps[n], w);
      hide Apply;
    }
  }

  lemma EarlierDuringTheCall(setup: Setup, s: State, steps: seq<Step>, w: Worker)
    requires steps != [] && DuringACall(setup, s, steps, w)
    ensures DuringACall(setup, s, steps[..|steps| - 1], w)
  {
    var before := steps[..|steps| - 1];
    hide Run;
    forall k | 0 <= k < |before|
      ensures before[k] != Replace(w) && (Run(setup, s, before[..k]).Some? ==> w in Run(setup, s, before[..k]).value.writers)
    {
      assert before[..k] == steps[..k];
    }
  }

  lemma OnlyTheHolderReplaces(setup: Setup, first: Bytes, s: State, step: Step, w: Worker)
    requires Inv(setup, first, s) && Apply(setup, s, step).Some? && w in s.writers && step != Replace(w)
    ensures Apply(setup, s, step).value.file == s.file
  {
    hide Valid, Chain, SnapshotsSeen;
    assert s.lock == Some(w);
  }

  // ---- replacements are asked for, and an undisturbed one is made ----

  /** The thread asked for this configuration in exchange for the revision. */
  ghost predicate AskedFor(steps: seq<Step>, w: Worker, expected: string, c: Configuration) {
    exists i :: 0 <= i < |steps| && steps[i] == Acquire(w, c, expected)
  }

  /** It then unlocked its credentials and passed the connection check. */
  ghost predicate ApprovedBy(setup: Setup, step: Step, w: Worker, c: Configuration) {
    step.Build? && step.w == w && step.accepted && Resolves(setup, c, step.unlocks)
  }

  ghost predicate Approved(setup: Setup, steps: seq<Step>, w: Worker, expected: string, c: Configuration) {
    exists j :: 0 <= j < |steps| && ApprovedBy(setup, steps[j], w, c) && AskedFor(steps[..j], w, expected, c)
  }

  ghost predicate StageAsked(setup: Setup, steps: seq<Step>, w: Worker, stage: WriterStage) {
    match stage
    case Locked(expected, c) => AskedFor(steps, w, expected, c)
    case Checked(expected, c) => AskedFor(steps, w, expected, c)
    case Built(expected, candidate) => Approved(setup, steps, w, expected, candidate.configuration)
    case Written(_) => true
  }

  ghost predicate WriteAsked(setup: Setup, steps: seq<Step>, write: Write) {
    exists w, c :: Approved(setup, steps, w, write.expected, c) && write.written == setup.format.serialize(c)
  }

  ghost predicate AllAsked(setup: Setup, steps: seq<Step>, s: State) {
    && (forall w :: w in s.writers ==> StageAsked(setup, steps, w, s.writers[w]))
    && (forall k :: 0 <= k < |s.history| ==> WriteAsked(setup, steps, s.history[k]))
  }

  lemma AskedForStays(steps: seq<Step>, step: Step, w: Worker, expected: string, c: Configuration)
    requires AskedFor(steps, w, expected, c)
    ensures AskedFor(steps + [step], w, expected, c)
  {
    var i :| 0 <= i < |steps| && steps[i] == Acquire(w, c, expected);
    assert (steps + [step])[i] == Acquire(w, c, expected);
  }

  lemma ApprovedStays(setup: Setup, steps: seq<Step>, step: Step, w: Worker, expected: string, c: Configuration)
    requires Approved(setup, steps, w, expected, c)
    ensures Approved(setup, steps + [step], w, expected, c)
  {
    hide AskedFor, ApprovedBy;
    var j :| 0 <= j < |steps| && ApprovedBy(setup, steps[j], w, c) && AskedFor(steps[..j], w, expected, c);
    assert (steps + [step])[j] == steps[j] && (steps + [step])[..j] == steps[..j];
  }

  lemma AskedStays(setup: Setup, steps: seq<Step>, step: Step, s: State)
    requires AllAsked(setup, steps, s)
    ensures AllAsked(setup, steps + [step], s)
  {
    hide Approved, AskedFor;
    forall w | w in s.writers ensures StageAsked(setup, steps + [step], w, s.writers[w]) {
      var stage := s.writers[w];
      assert StageAsked(setup, steps, w, stage);
      if stage.Built? {
        ApprovedStays(setup, steps, step, w, stage.expected, stage.candidate.configuration);
      } else if !stage.Written? {
        AskedForStays(steps, step, w, stage.expected, stage.configuration);
      }
    }
    forall k | 0 <= k < |s.history| ensures WriteAsked(setup, steps + [step], s.history[k]) {
      assert WriteAsked(setup, steps, s.history[k]);
      var w, c :| Approved(setup, steps, w, s.history[k].expected, c) && s.history[k].written == setup.format.serialize(c);
      ApprovedStays(setup, steps, step, w, s.history[k].expected, c);
    }
  }

  /** One more step: what it leaves of the stages and the history was asked for. */
  lemma StepKeepsAsked(setup: Setup, steps: seq<Step>, s: State, step: Step)
    requires AllAsked(setup, steps, s) && Apply(setup, s, step).Some?
    ensures AllAsked(setup, steps + [step], Apply(setup, s, step).value)
  {
    hide StageAsked, WriteAsked, Valid;
    AskedStays(setup, steps, step, s);
    var t := Apply(setup, s, step).value;
    if step.Acquire? {
      NewCallAsked(setup, steps, step);
    } else if step.Build? && step.w in t.writers {
      BuildIsApproved(setup, steps, s, step);
    } else if step.Check? && step.w in t.writers {
      CheckKeepsAsked(setup, steps, s, step);
    } else if step.Replace? {
      ReplacementIsAsked(setup, steps, s, step);
    }
  }

  lemma NewCallAsked(setup: Setup, steps: seq<Step>, step: Step)
    requires step.Acquire?
    ensures StageAsked(setup, steps + [step], step.w, Locked(step.expected, step.configuration))
  {
    assert (steps + [step])[|steps|] == step;
  }

  lemma CheckKeepsAsked(setup: Setup, steps: seq<Step>, s: State, step: Step)
    requires AllAsked(setup, steps + [step], s) && step.Check? && Apply(setup, s, step).Some?
    requires step.w in Apply(setup, s, step).value.writers
    ensures StageAsked(setup, steps + [step], step.w, Apply(setup, s, step).value.writers[step.w])
  {
    hide AskedFor;
    assert StageAsked(setup, steps + [step], step.w, s.writers[step.w]);
  }

  lemma BuildIsApproved(setup: Setup, steps: seq<Step>, s: State, step: Step)
    requires AllAsked(setup, steps, s) && step.Build? && Apply(setup, s, step).Some?
    requires step.w in Apply(setup, s, step).value.writers
    ensures StageAsked(setup, steps + [step], step.w, Apply(setup, s, step).value.writers[step.w])
  {
    var stage := s.writers[step.w];
    assert StageAsked(setup, steps, step.w, stage);
    hide AskedFor;
    assert (steps + [step])[|steps|] == step && (steps + [step])[..|steps|] == steps;
    assert ApprovedBy(setup, step, step.w, stage.configuration);
    assert Approved(setup, steps + [step], step.w, stage.expected, stage.configuration);
  }

  lemma ReplacementIsAsked(setup: Setup, steps: seq<Step>, s: State, step: Step)
    requires AllAsked(setup, steps + [step], s) && step.Replace? && Apply(setup, s, step).Some?
    ensures var t := Apply(setup, s, step).value;
            && StageAsked(setup, steps + [step], step.w, t.writers[step.w])
            && WriteAsked(setup, steps + [step], t.history[|s.history|])
  {
    hide Approved, AskedFor;
    var stage := s.writers[step.w];
    assert StageAsked(setup, steps + [step], step.w, stage);
    assert Approved(setup, steps + [step], step.w, stage.expected, stage.candidate.configuration);
  }

  /** In every run, every write is the configuration of a call that named the revision it replaced, resolved its
      credentials and was accepted before. */
  lemma {:induction false} EveryWriteWasAskedFor(setup: Setup, init: State, steps: seq<Step>)
    requires Initial(init) && Run(setup, init, steps).Some?
    ensures AllAsked(setup, steps, Run(setup, init, steps).value)
    decreases |steps|
  {
    hide Apply, AllAsked, Initial;
    if steps == [] {
      NothingAsked(setup, init);
    } else {
      var n := |steps| - 1;
      EveryWriteWasAskedFor(setup, init, steps[..n]);
      StepKeepsAsked(setup, steps[..n], Run(setup, init, steps[..n]).value, steps[n]);
      assert steps[..n] + [steps[n]] == steps;
    }
    assert AllAsked(setup, steps, Run(setup, init, steps).value);
  }

  lemma NothingAsked(setup: Setup, init: State)
    requires Initial(init)
    ensures AllAsked(setup, [], init)
  {}

  /** The steps of a replace call that meets no obstacle, up to its end. */
  function Replacing(w: Worker, c: Configuration, expected: string): seq<Step> {
    [Acquire(w, c, expected), Check(w), Build(w, true, true), Replace(w), Publish(w)]
  }

  /** Nobody is in the way of thread w. */
  ghost predicate Undisturbed(setup: Setup, s: State, w: Worker) {
    s.lock == None && w !in s.writers && w !in s.readers && setup.home(w) !in s.mutexes
  }

  /** A call that nobody disturbs and that names the revision of the file puts its configuration there and into the
      cache of its process; whoever names another one is turned away at the check, and nothing changes. */
  lemma UndisturbedReplacement(setup: Setup, s: State, w: Worker, c: Configuration, expected: string)
    requires Undisturbed(setup, s, w) && Valid(c) && setup.format.parse(s.file.bytes).Some? && Resolves(setup, c, true)
    ensures expected == setup.format.revision(s.file.bytes) ==>
              && Run(setup, s, Replacing(w, c, expected)).Some?
              && var t := Run(setup, s, Replacing(w, c, expected)).value;
                 && t.file.bytes == setup.format.serialize(c)
                 && t.history == s.history + [Write(expected, s.file.bytes, t.file.bytes)]
                 && CacheOf(t, setup.home(w)).snapshot == Some(Snapshot(setup.format.revision(t.file.bytes), c))
                 && CacheOf(t, setup.home(w)).observed == Some(SignatureOf(t))
                 && t.lock == None && t.writers == s.writers && t.mutexes == s.mutexes
    ensures expected != setup.format.revision(s.file.bytes) ==>
              Run(setup, s, Replacing(w, c, expected)[..2]) == Some(s)
  {
    hide Valid, Run, Find, Apply;
    var steps := Replacing(w, c, expected);
    var checked := CallIsChecked(setup, s, w, c, expected);
    if expected == setup.format.revision(s.file.bytes) {
      var t := CheckedCallReplaces(setup, s, steps, w, c, expected, checked);
      assert steps[..5] == steps;
    }
  }

  lemma CallIsChecked(setup: Setup, s: State, w: Worker, c: Configuration, expected: string) returns (t: State)
    requires Undisturbed(setup, s, w) && Valid(c) && setup.format.parse(s.file.bytes).Some?
    ensures Run(setup, s, Replacing(w, c, expected)[..2]) == Some(t)
    ensures t == if expected != setup.format.revision(s.file.bytes) then s
                 else s.(lock := Some(w), mutexes := s.mutexes[setup.home(w) := w], writers := s.writers[w := Checked(expected, c)])
  {
    hide Valid, Run, Find;
    var steps := Replacing(w, c, expected);
    EmptyRun(setup, s, steps);
    var s1 := Apply(setup, s, steps[0]).value;
    RunOn(setup, s, steps, 0, s, s1);
    t := Apply(setup, s1, steps[1]).value;
    RunOn(setup, s, steps, 1, s1, t);
    if expected != setup.format.revision(s.file.bytes) {
      assert s1.writers - {w} == s.writers && Released(setup, s1, w) == s.mutexes;
    } else {
      assert s1.writers[w := Checked(expected, c)] == s.writers[w := Checked(expected, c)];
    }
  }

  lemma CheckedCallReplaces(setup: Setup, s: State, steps: seq<Step>, w: Worker, c: Configuration, expected: string,
                            checked: State) returns (t: State)
    requires Undisturbed(setup, s, w) && Resolves(setup, c, true) && steps == Replacing(w, c, expected)
    requires Run(setup, s, steps[..2]) == Some(checked)
    requires checked == s.(lock := Some(w), mutexes := s.mutexes[setup.home(w) := w],
                           writers := s.writers[w := Checked(expected, c)])
    ensures Run(setup, s, steps[..5]) == Some(t) && t.file.bytes == setup.format.serialize(c)
    ensures t.history == s.history + [Write(expected, s.file.bytes, t.file.bytes)]
    ensures CacheOf(t, setup.home(w)) == Cache(Some(Snapshot(setup.format.revision(t.file.bytes), c)), Some(SignatureOf(t)))
    ensures t.lock == None && t.writers == s.writers && t.mutexes == s.mutexes
  {
    hide Run, Find, Resolves;
    var s3 := Apply(setup, checked, steps[2]).value;
    RunOn(setup, s, steps, 2, checked, s3);
    var s4 := Apply(setup, s3, steps[3]).value;
    RunOn(setup, s, steps, 3, s3, s4);
    t := Apply(setup, s4, steps[4]).value;
    RunOn(setup, s, steps, 4, s4, t);
    assert s4.writers - {w} == s.writers && Released(setup, s4, w) == s.mutexes;
  }

  /** A snapshot call that nobody disturbs and that finds the file changed: it caches what the file says if that can be
      read and unlocked; otherwise a snapshot of before stays, and the file is not read again until it changes. */
  lemma UndisturbedReload(setup: Setup, s: State, w: Worker, unlocks: bool)
    requires Undisturbed(setup, s, w)
    requires var cache := CacheOf(s, setup.home(w)); cache.snapshot == None || cache.observed != Some(SignatureOf(s))
    ensures var p, steps, now := setup.home(w), [Look(w), Read(w, unlocks), PublishRead(w)], setup.format.parse(s.file.bytes);
            if now.Some? && Resolves(setup, now.value, unlocks) then
              Run(setup, s, steps) == Some(s.(caches := s.caches[p :=
                Cache(Some(Snapshot(setup.format.revision(s.file.bytes), now.value)), Some(SignatureOf(s)))]))
            else if CacheOf(s, p).snapshot.Some? then
              Run(setup, s, steps[..2]) == Some(s.(caches := s.caches[p := Cache(CacheOf(s, p).snapshot, Some(SignatureOf(s)))]))
            else Run(setup, s, steps[..2]) == Some(s)
  {
    hide Run, Resolves;
    var steps := [Look(w), Read(w, unlocks), PublishRead(w)];
    EmptyRun(setup, s, steps);
    var s1 := Apply(setup, s, steps[0]).value;
    RunOn(setup, s, steps, 0, s, s1);
    assert s1.readers - {w} == s.readers && s1.mutexes - {setup.home(w)} == s.mutexes;
    var s2 := Apply(setup, s1, steps[1]).value;
    RunOn(setup, s, steps, 1, s1, s2);
    if w in s2.readers {
      assert s2.readers - {w} == s.readers;
      RunOn(setup, s, steps, 2, s2, Apply(setup, s2, steps[2]).value);
      assert steps[..3] == steps;
    }
  }

  lemma EmptyRun(setup: Setup, s: State, steps: seq<Step>)
    ensures Run(setup, s, steps[..0]) == Some(s)
  {}

  // ---- freshness, and exactly where it is lost ----

  /** What a reader holds is what the file says, unless the file was replaced since. */
  ghost predicate ReadersOk(setup: Setup, s: State) {
    forall w :: w in s.readers ==>
      match s.readers[w]
      case Looked(signature) => signature.json <= s.file.stamp
      case Loaded(snapshot, stamp) =>
        stamp <= s.file.stamp && (stamp == s.file.stamp ==> OfContent(setup, snapshot, s.file.bytes))
  }

  lemma StepKeepsReadersOk(setup: Setup, s: State, step: Step)
    requires ReadersOk(setup, s) && Apply(setup, s, step).Some?
    ensures ReadersOk(setup, Apply(setup, s, step).value)
  {
    hide Valid;
  }

  /** The file was replaced by different bytes between the read of this reload and its signature. */
  ghost predicate Overtaken(setup: Setup, s: State, w: Worker)
    requires w in s.readers && s.readers[w].Loaded?
  {
    s.readers[w].stamp != s.file.stamp && s.readers[w].snapshot.revision != setup.format.revision(s.file.bytes)
  }

  ghost predicate ReloadFails(setup: Setup, s: State, step: Step)
    requires step.Read?
  {
    var c := setup.format.parse(s.file.bytes);
    c == None || !Resolves(setup, c.value, step.unlocks)
  }

  /** Whether the last thing process p did to its cache was a reload that was overtaken by different bytes, or
      one that failed while the file had another revision than the snapshot that is kept. */
  ghost function StaleAfter(setup: Setup, s: State, step: Step, p: ProcessId, before: bool): bool {
    if step == Kill(p) || (step.Publish? && setup.home(step.w) == p) then false
    else if step.PublishRead? && setup.home(step.w) == p && step.w in s.readers && s.readers[step.w].Loaded? then
      Overtaken(setup, s, step.w)
    else if step.Read? && setup.home(step.w) == p && CacheOf(s, p).snapshot.Some? && ReloadFails(setup, s, step) then
      CacheOf(s, p).snapshot.value.revision != setup.format.revision(s.file.bytes)
    else before
  }

  ghost function Stale(setup: Setup, init: State, steps: seq<Step>, p: ProcessId): bool {
    if steps == [] then false
    else
      var r, before := Run(setup, init, steps[..|steps| - 1]), Stale(setup, init, steps[..|steps| - 1], p);
      if r == None then before else StaleAfter(setup, r.value, steps[|steps| - 1], p, before)
  }

  ghost predicate CacheOk(setup: Setup, s: State, p: ProcessId, stale: bool) {
    var c := CacheOf(s, p);
    c.observed.Some? ==>
      && c.snapshot.Some? && c.observed.value.json <= s.file.stamp
      && (c.observed.value.json == s.file.stamp ==> (OfContent(setup, c.snapshot.value, s.file.bytes) <==> !stale))
  }

  /** With an injective revision, a snapshot that was ever in the file is its content now exactly if the revisions agree. */
  lemma RevisionDecides(setup: Setup, first: Bytes, s: State, snapshot: Snapshot)
    requires Injective(setup.format) && Seen(setup, first, s.history, snapshot)
    ensures OfContent(setup, snapshot, s.file.bytes) <==> snapshot.revision == setup.format.revision(s.file.bytes)
  {
    hide Good;
    var k: nat :| k <= |s.history| && OfContent(setup, snapshot, Left(first, s.history, k));
    assert setup.format.revision(Left(first, s.history, k)) == snapshot.revision;
  }

  lemma WriterKeepsCacheOk(setup: Setup, first: Bytes, s: State, step: Step, p: ProcessId, stale: bool)
    requires Inv(setup, first, s) && CacheOk(setup, s, p, stale)
    requires step.Check? || step.Build? || step.Replace? || step.Publish? || step.Fail?
    requires WriterStep(setup, s, step).Some?
    ensures CacheOk(setup, WriterStep(setup, s, step).value, p, StaleAfter(setup, s, step, p, stale))
  {
    hide Valid, Chain, SnapshotsSeen;
    assert WriterOk(setup, s.file.bytes, s.writers[step.w]);
  }

  lemma OtherCachesStay(setup: Setup, s: State, step: Step, p: ProcessId)
    requires (step.Look? || step.Read? || step.PublishRead?) && ReaderStep(setup, s, step).Some?
    requires step.Look? || setup.home(step.w) != p
    ensures var t := ReaderStep(setup, s, step).value; t.file == s.file && CacheOf(t, p) == CacheOf(s, p)
  {}

  lemma ReadKeepsCacheOk(setup: Setup, first: Bytes, s: State, step: Step, stale: bool)
    requires Injective(setup.format) && SnapshotsSeen(setup, first, s) && ReadersOk(setup, s)
    requires step.Read? && CacheOk(setup, s, setup.home(step.w), stale) && ReaderStep(setup, s, step).Some?
    ensures CacheOk(setup, ReaderStep(setup, s, step).value, setup.home(step.w),
                    StaleAfter(setup, s, step, setup.home(step.w), stale))
  {
    var cache := CacheOf(s, setup.home(step.w));
    if cache.snapshot.Some? { RevisionDecides(setup, first, s, cache.snapshot.value); }
    hide Seen, Injective, OfContent, SnapshotsSeen, Resolves;
  }

  lemma PublishReadKeepsCacheOk(setup: Setup, first: Bytes, s: State, step: Step, stale: bool)
    requires Injective(setup.format) && SnapshotsSeen(setup, first, s) && ReadersOk(setup, s)
    requires step.PublishRead? && ReaderStep(setup, s, step).Some?
    ensures CacheOk(setup, ReaderStep(setup, s, step).value, setup.home(step.w),
                    StaleAfter(setup, s, step, setup.home(step.w), stale))
  {
    RevisionDecides(setup, first, s, s.readers[step.w].snapshot);
    hide Seen, Injective, SnapshotsSeen;
  }

  lemma ReaderKeepsCacheOk(setup: Setup, first: Bytes, s: State, step: Step, p: ProcessId, stale: bool)
    requires Injective(setup.format) && SnapshotsSeen(setup, first, s) && ReadersOk(setup, s) && CacheOk(setup, s, p, stale)
    requires step.Look? || step.Read? || step.PublishRead?
    requires ReaderStep(setup, s, step).Some?
    ensures CacheOk(setup, ReaderStep(setup, s, step).value, p, StaleAfter(setup, s, step, p, stale))
  {
    hide Injective, SnapshotsSeen, ReadersOk, ReaderStep;
    if step.Look? || setup.home(step.w) != p {
      OtherCachesStay(setup, s, step, p);
    } else if step.Read? {
      ReadKeepsCacheOk(setup, first, s, step, stale);
    } else {
      PublishReadKeepsCacheOk(setup, first, s, step, stale);
    }
  }

  lemma StepKeepsCacheOk(setup: Setup, first: Bytes, s: State, step: Step, p: ProcessId, stale: bool)
    requires Injective(setup.format) && Inv(setup, first, s) && ReadersOk(setup, s) && CacheOk(setup, s, p, stale)
    requires Apply(setup, s, step).Some?
    ensures CacheOk(setup, Apply(setup, s, step).value, p, StaleAfter(setup, s, step, p, stale))
  {
    hide SnapshotsSeen, ReadersOk;
    if step.Look? || step.Read? || step.PublishRead? {
      ReaderKeepsCacheOk(setup, first, s, step, p, stale);
    } else if step.Acquire? || step.Kill? || step.KeyChange? {
      hide Valid;
    } else {
      WriterKeepsCacheOk(setup, first, s, step, p, stale);
    }
  }

  lemma {:induction false} RunKeepsCacheOk(setup: Setup, init: State, steps: seq<Step>, p: ProcessId, s: State)
    requires Strict(setup.format) && Injective(setup.format) && Initial(init) && Run(setup, init, steps) == Some(s)
    ensures CacheOk(setup, s, p, Stale(setup, init, steps, p)) && ReadersOk(setup, s)
    decreases |steps|
  {
    hide Apply, StaleAfter, CacheOk, ReadersOk;
    if steps == [] {
      FreshCacheOk(setup, init, p);
    } else {
      var before, last := Run(setup, init, steps[..|steps| - 1]).value, steps[|steps| - 1];
      RunKeepsCacheOk(setup, init, steps[..|steps| - 1], p, before);
      RunKeepsInv(setup, init, steps[..|steps| - 1]);
      hide Inv;
      StepKeepsReadersOk(setup, before, last);
      StepKeepsCacheOk(setup, init.file.bytes, before, last, p, Stale(setup, init, steps[..|steps| - 1], p));
    }
  }

  lemma FreshCacheOk(setup: Setup, init: State, p: ProcessId)
    requires Initial(init)
    ensures CacheOk(setup, init, p, false) && ReadersOk(setup, init)
  {}

  /** In every run: a snapshot call that is answered from the cache, without reading, gives what the file says if
      and only if the last reload of its process was neither overtaken by different bytes nor failed behind
      the file. */
  lemma CachedAnswersAreCurrentExactly(setup: Setup, init: State, steps: seq<Step>, w: Worker, s: State)
    requires Strict(setup.format) && Injective(setup.format) && Initial(init) && Run(setup, init, steps) == Some(s)
    requires ReaderStep(setup, s, Look(w)) == Some(s)
    ensures CacheOf(s, setup.home(w)).snapshot.Some?
    ensures OfContent(setup, CacheOf(s, setup.home(w)).snapshot.value, s.file.bytes)
            <==> !Stale(setup, init, steps, setup.home(w))
  {
    RunKeepsCacheOk(setup, init, steps, setup.home(w), s);
    hide Run, Stale, OfContent;
    LookFindsItCached(setup, s, w);
  }

  lemma LookFindsItCached(setup: Setup, s: State, w: Worker)
    requires ReaderStep(setup, s, Look(w)) == Some(s)
    ensures CacheOf(s, setup.home(w)).snapshot.Some? && CacheOf(s, setup.home(w)).observed == Some(SignatureOf(s))
  {
    var looked := s.readers[w := Looked(SignatureOf(s))];
    assert w in looked;
  }

  /** A reload publishes what the file says if and only if it was not overtaken by different bytes. */
  lemma ReloadIsCurrentExactly(setup: Setup, init: State, steps: seq<Step>, w: Worker, s: State, t: State)
    requires Strict(setup.format) && Injective(setup.format) && Initial(init) && Run(setup, init, steps) == Some(s)
    requires ReaderStep(setup, s, PublishRead(w)) == Some(t)
    ensures CacheOf(t, setup.home(w)).snapshot.Some? && w in s.readers && s.readers[w].Loaded?
    ensures OfContent(setup, CacheOf(t, setup.home(w)).snapshot.value, t.file.bytes) <==> !Overtaken(setup, s, w)
  {
    RunKeepsCacheOk(setup, init, steps, setup.home(w), s);
    RunKeepsInv(setup, init, steps);
    hide Run, Stale;
    assert Seen(setup, init.file.bytes, s.history, s.readers[w].snapshot);
    RevisionDecides(setup, init.file.bytes, s, s.readers[w].snapshot);
    hide Inv;
  }

  /** One process reads, another replaces the file, and the first takes its signature only after that. */
  function Missing(b: Configuration, expected: string): seq<Step> {
    [Look(0), Read(0, true), Acquire(1, b, expected), Check(1), Build(1, true, true), Replace(1), Publish(1), PublishRead(0)]
  }

  lemma RunOn(setup: Setup, init: State, steps: seq<Step>, n: nat, s: State, t: State)
    requires n < |steps| && Run(setup, init, steps[..n]) == Some(s) && Apply(setup, s, steps[n]) == Some(t)
    ensures Run(setup, init, steps[..n + 1]) == Some(t)
  {
    assert steps[..n + 1][..n] == steps[..n];
    hide Apply;
  }

  lemma FirstProcessReads(setup: Setup, a: Configuration, init: State, steps: seq<Step>) returns (s: State)
    requires Strict(setup.format) && Valid(a) && Initial(init) && init.file.bytes == setup.format.serialize(a)
    requires setup.home(0) == 0 && !setup.captions && |steps| >= 2 && steps[..2] == [Look(0), Read(0, true)]
    ensures Run(setup, init, steps[..2]) == Some(s)
    ensures s == init.(mutexes := map[0 := 0],
                       readers := map[0 := Loaded(Snapshot(setup.format.revision(init.file.bytes), a), init.file.stamp)])
  {
    assert Run(setup, init, steps[..0]) == Some(init);
    assert steps[0] == steps[..2][0] && steps[1] == steps[..2][1];
    hide Valid, Run;
    var r := Apply(setup, init, Look(0)).value;
    RunOn(setup, init, steps, 0, init, r);
    s := Apply(setup, r, Read(0, true)).value;
    RunOn(setup, init, steps, 1, r, s);
  }

  lemma SecondProcessPrepares(setup: Setup, b: Configuration, init: State, steps: seq<Step>, s: State) returns (t: State)
    requires Strict(setup.format) && Valid(b) && s.lock == None && s.writers == map[] && s.mutexes == map[0 := 0]
    requires setup.format.parse(s.file.bytes).Some? && setup.home(1) == 1 && !setup.captions && 1 !in s.readers
    requires |steps| == 8 && steps == Missing(b, setup.format.revision(s.file.bytes)) && Run(setup, init, steps[..2]) == Some(s)
    ensures Run(setup, init, steps[..5]) == Some(t)
    ensures var revision := setup.format.revision(setup.format.serialize(b));
            t == s.(lock := Some(1), mutexes := map[0 := 0, 1 := 1],
                    writers := map[1 := Built(setup.format.revision(s.file.bytes), Snapshot(revision, b))])
  {
    hide Valid, Run, Find;
    var s3 := Apply(setup, s, steps[2]).value;
    RunOn(setup, init, steps, 2, s, s3);
    var s4 := Apply(setup, s3, steps[3]).value;
    RunOn(setup, init, steps, 3, s3, s4);
    t := Apply(setup, s4, steps[4]).value;
    RunOn(setup, init, steps, 4, s4, t);
  }

  lemma SecondProcessReplaces(setup: Setup, b: Configuration, init: State, steps: seq<Step>, s: State) returns (t: State)
    requires |steps| == 8 && steps[5] == Replace(1) && steps[6] == Publish(1) && Run(setup, init, steps[..5]) == Some(s)
    requires 1 in s.writers && s.writers[1].Built? && s.writers[1].candidate.configuration == b && s.writers.Keys == {1}
    requires setup.home(1) == 1 && s.mutexes == map[0 := 0, 1 := 1]
    ensures Run(setup, init, steps[..7]) == Some(t)
    ensures t.file == File(setup.format.serialize(b), s.file.stamp + 1)
    ensures t.readers == s.readers && t.writers == map[] && t.mutexes == map[0 := 0]
  {
    hide Run;
    var s6 := Apply(setup, s, steps[5]).value;
    RunOn(setup, init, steps, 5, s, s6);
    t := Apply(setup, s6, steps[6]).value;
    RunOn(setup, init, steps, 6, s6, t);
    assert t.mutexes == map[0 := 0] && t.writers == map[];
  }

  /** When it was replaced in between, the new content is missed: whatever the two contents are, the first
      process then serves the old one as up to date. */
  lemma ReplacementCanBeMissed(setup: Setup, a: Configuration, b: Configuration, init: State)
    requires Strict(setup.format) && Valid(a) && Valid(b) && Initial(init) && init.file.bytes == setup.format.serialize(a)
    requires setup.home(0) == 0 && setup.home(1) == 1 && !setup.captions
    ensures var run := Run(setup, init, Missing(b, setup.format.revision(setup.format.serialize(a))));
            && run.Some?
            && run.value.file.bytes == setup.format.serialize(b)
            && ReaderStep(setup, run.value, Look(0)) == run
            && CacheOf(run.value, 0).snapshot == Some(Snapshot(setup.format.revision(setup.format.serialize(a)), a))
  {
    var steps := Missing(b, setup.format.revision(init.file.bytes));
    assert steps[..2] == [Look(0), Read(0, true)];
    var s := FirstProcessReads(setup, a, init, steps);
    hide Run;
    var r := SecondProcessPrepares(setup, b, init, steps, s);
    var t := SecondProcessReplaces(setup, b, init, steps, r);
    hide Apply, Valid, Strict;
    var u := OldContentIsServed(setup, t);
    RunOn(setup, init, steps, 7, t, u);
    assert steps[..8] == steps;
  }

  lemma OldContentIsServed(setup: Setup, t: State) returns (u: State)
    requires setup.home(0) == 0 && t.writers == map[] && t.mutexes == map[0 := 0]
    requires t.readers.Keys == {0} && t.readers[0].Loaded?
    ensures Apply(setup, t, PublishRead(0)) == Some(u) && u.file == t.file
    ensures ReaderStep(setup, u, Look(0)) == Some(u) && CacheOf(u, 0).snapshot == Some(t.readers[0].snapshot)
  {
    u := Apply(setup, t, PublishRead(0)).value;
    assert u.mutexes == map[] && u.readers == map[];
  }
}
