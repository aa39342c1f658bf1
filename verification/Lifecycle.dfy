/** The whole archive as one machine: captures registered, days compacted, revisions uploaded by one worker per
    destination, local copies retained and days summarised, with a crash allowed between any two steps. */
module Lifecycle {
  import opened Prelude
  import opened Tables
  import A = Artifact
  import C = Compact
  import opened Flatten
  import StateLaws

  /** What one compaction produced: the directory's two files, and the record it is saved or adopted with; and `read`,
      the payloads it could read, by capture. `row` depends on whether the configuration allows local-only cleanup. */
  datatype Package = Package(manifest: C.Manifest, data: Option<A.Data>, read: map<string, A.Bytes>, ids: seq<string>,
                             inputs: seq<Input>, excluded: set<string>, queue: map<string, bool>,
                             row: bool -> Compaction)

  datatype Object = ManifestObject(m: C.Manifest) | DataObject(data: A.Data)

  /** Which packages compaction can produce, SHA-256 of a revision's file and of a payload, the feed decoder, and the
      publication directory of a manifest at a destination. */
  datatype World = World(good: (Revision, Package) -> bool, hash: Object -> string, digest: A.Bytes -> string,
                         decode: A.Bytes -> Option<Message>, dirOf: (string, C.Manifest) -> Option<string>)

  ghost predicate Sound(p: Package) {
    && (forall i :: i in p.inputs ==> i.id in p.ids)
    && (forall allow :: p.row(allow).publishedAt.Some? ==> allow && forall d :: d in p.queue ==> !p.queue[d])
    && (forall allow :: p.row(allow).manifestPath != "")
  }

  ghost predicate WorldOk(w: World) {
    forall k, p :: w.good(k, p) ==> Sound(p)
  }

  datatype LocalFiles = LocalFiles(manifest: Option<C.Manifest>, data: Option<A.Data>)

  /** A remote object: destination, publication directory, name. */
  type Address = (string, string, string)

  datatype Stage = Between | Attempted(m: C.Manifest, dir: string) | Copying(m: C.Manifest, dir: string, done: nat)
                 | Copied(m: C.Manifest, dir: string)

  /** One run of ProcessPending: the listed rows still to do, the first of them in hand unless Between. */
  datatype Worker = Worker(queue: seq<UploadKey>, stage: Stage)

  /** A compaction in progress, with the ID and hash of every capture row it loaded. */
  datatype Job = Job(k: Revision, inputs: seq<Input>, written: bool)

  /** The holder of archiveMu: a compaction pass with at most one job per stream, or a cleanup at one of its three
      passes; `step` counts the file removals done for the first item. */
  datatype Janitor = Idle | Compacting(jobs: map<Stream, Job>) | RawPass(captures: seq<string>, step: nat)
                   | ParquetPass(revisions: seq<Revision>, step: nat) | SummaryPass(days: seq<Day>)

  /** The raw directory: the IDs ever committed and ever registered, the payloads and sidecars there, and the captures
      whose payload something else has changed or removed. */
  datatype RawFiles = RawFiles(seen: set<string>, registered: set<string>, payloads: map<string, A.Bytes>,
                               damaged: set<string>, sidecars: set<string>)

  /** `localOnly` are the revisions recorded while the configuration allowed local-only cleanup. */
  datatype Sys = Sys(db: DB, raw: RawFiles, catalog: map<Revision, Package>, local: map<Revision, LocalFiles>,
                     remote: map<Address, Object>, workers: map<string, Worker>, janitor: Janitor,
                     localOnly: set<Revision>)

  datatype FetchStep =
    | CommitFiles(id: string, body: A.Bytes)
    | Register(tick: Tick, id: string, c: Capture)
    | NoteTick(id: string, tick: Tick)

  datatype CompactStep =
    | StartCompacting
    | StartJob(day: Day, inputs: seq<Input>)
    | WriteRevision(stream: Stream, p: Package)
    | SaveRevision(stream: Stream, allow: bool, now: int)
    | DropJob(stream: Stream)
    | EndCompacting

  datatype UploadStep =
    | ListUploads(queue: seq<UploadKey>, now: int)
    | BeginUpload(next: int)
    | CheckLocal
    | PutArtifact
    | ConfirmArtifact
    | PutManifest
    | ConfirmManifest
    | FinishUpload(now: int)
    | FailUpload(status: Status, detail: string, next: int)
    | EndUploads

  datatype CleanStep =
    | StartCleanup(captures: seq<string>, cutoff: int)
    | RemovePayload
    | RemoveSidecar
    | MarkRaw
    | StartParquet(revisions: seq<Revision>, cutoff: int)
    | RemoveData
    | RemoveManifest
    | MarkParquet
    | StartSummaries(days: seq<Day>, cutoff: int)
    | SummariseNext(start: int, end: int, now: int)
    | EndCleanup

  /** A crash, a payload damaged from outside, and what runs with the archive to itself. */
  datatype OperatorStep =
    | Crash
    | Damage(id: string, left: Option<A.Bytes>)
    | Adopt(k: Revision, allow: bool, now: int)
    | Backfill(d: string, now: int)
    | Retire(d: string, reason: string, now: int)

  datatype Action =
    Fetch(f: FetchStep) | Compact(c: CompactStep) | Upload(d: string, u: UploadStep) | Clean(r: CleanStep)
    | Operate(o: OperatorStep)

  const MANIFEST := C.MANIFEST_NAME

  predicate Exclusive(s: Sys) {
    s.workers == map[] && s.janitor.Idle?
  }

  function Full(p: Package): LocalFiles {
    LocalFiles(Some(p.manifest), p.data)
  }

  /** VerifyDirectory on the files of a manifest's directory. */
  predicate LocallyOk(w: World, l: LocalFiles, m: C.Manifest) {
    l.manifest == Some(m) && forall a :: a in m.files ==> l.data.Some? && w.hash(DataObject(l.data.value)) == a.sha256
  }

  predicate ArtifactThere(w: World, remote: map<Address, Object>, d: string, dir: string, a: C.FileEntry) {
    (d, dir, a.relativePath) in remote && w.hash(remote[(d, dir, a.relativePath)]) == a.sha256
  }

  predicate ArtifactsThere(w: World, remote: map<Address, Object>, d: string, dir: string, files: seq<C.FileEntry>) {
    forall a :: a in files ==> ArtifactThere(w, remote, d, dir, a)
  }

  predicate ManifestThere(w: World, remote: map<Address, Object>, d: string, dir: string, m: C.Manifest) {
    (d, dir, MANIFEST) in remote && w.hash(remote[(d, dir, MANIFEST)]) == w.hash(ManifestObject(m))
  }

  function InputIds(inputs: seq<Input>): (ids: seq<string>)
    ensures |ids| == |inputs|
  {
    seq(|inputs|, i requires 0 <= i < |inputs| => inputs[i].id)
  }

  /** The capture row is there, with the recorded hash. */
  predicate Held(db: DB, i: Input) {
    i.id in db.captures && db.captures[i.id].sha256 == i.sha256
  }

  /** What was read of an undamaged payload is what is there. Not everything needs to have been readable. */
  predicate ReadFrom(raw: RawFiles, p: Package) {
    forall id :: id in p.read ==>
      id in p.ids && (id !in raw.damaged ==> id in raw.payloads && raw.payloads[id] == p.read[id])
  }

  predicate Working(s: Sys, d: string) {
    d in s.workers && |s.workers[d].queue| > 0
  }

  /** The worker's first row is readable: its revision has a manifest path and the manifest is there. */
  predicate ManifestReadable(s: Sys, k: Revision) {
    && k in s.db.compactions && s.db.compactions[k].manifestPath != ""
    && k in s.local && s.local[k].manifest.Some?
  }

  ghost predicate CanFetch(w: World, s: Sys, a: FetchStep) {
    match a
    case CommitFiles(id, _) => id !in s.raw.seen
    case Register(_, id, c) =>
      && id in s.raw.payloads && id in s.raw.sidecars && c.rawPath.Live?
      && (id !in s.raw.damaged ==> w.digest(s.raw.payloads[id]) == c.sha256)
    case NoteTick(_, _) => true
  }

  ghost predicate CanCompact(w: World, s: Sys, a: CompactStep) {
    match a
    case StartCompacting => s.janitor.Idle?
    case StartJob(day, inputs) =>
      && s.janitor.Compacting? && day.stream !in s.janitor.jobs
      && Revision(day, NextRevision(s.db, day)) !in s.local
      && Distinct(InputIds(inputs)) && (set id | id in InputIds(inputs)) == DayCaptures(s.db, day)
      && forall i :: i in inputs ==> Held(s.db, i)
    case WriteRevision(stream, p) =>
      && s.janitor.Compacting? && stream in s.janitor.jobs && !s.janitor.jobs[stream].written
      && w.good(s.janitor.jobs[stream].k, p)
      && ReadFrom(s.raw, p) && p.inputs == s.janitor.jobs[stream].inputs
      && p.ids == InputIds(s.janitor.jobs[stream].inputs)
    case SaveRevision(stream, _, _) =>
      s.janitor.Compacting? && stream in s.janitor.jobs && s.janitor.jobs[stream].written
        && s.janitor.jobs[stream].k in s.catalog
    case DropJob(stream) => s.janitor.Compacting? && stream in s.janitor.jobs
    case EndCompacting => s.janitor.Compacting? && s.janitor.jobs == map[]
  }

  ghost predicate CanUpload(w: World, s: Sys, d: string, a: UploadStep) {
    match a
    case ListUploads(queue, now) =>
      && d !in s.workers && Distinct(queue)
      && forall u :: u in queue <==> u.1 == d && Workable(s.db, u, now)
    case BeginUpload(_) =>
      && Working(s, d) && s.workers[d].stage == Between && ManifestReadable(s, s.workers[d].queue[0].0)
      && w.dirOf(d, s.local[s.workers[d].queue[0].0].manifest.value).Some?
    case CheckLocal =>
      && Working(s, d) && s.workers[d].stage.Attempted? && s.workers[d].queue[0].0 in s.local
      && LocallyOk(w, s.local[s.workers[d].queue[0].0], s.workers[d].stage.m)
    case PutArtifact =>
      && Working(s, d) && s.workers[d].stage.Copying? && s.workers[d].stage.done < |s.workers[d].stage.m.files|
      && s.workers[d].queue[0].0 in s.local && s.local[s.workers[d].queue[0].0].data.Some?
      && (d, s.workers[d].stage.dir, s.workers[d].stage.m.files[s.workers[d].stage.done].relativePath) !in s.remote
    case ConfirmArtifact =>
      && Working(s, d) && s.workers[d].stage.Copying? && s.workers[d].stage.done < |s.workers[d].stage.m.files|
      && ArtifactThere(w, s.remote, d, s.workers[d].stage.dir, s.workers[d].stage.m.files[s.workers[d].stage.done])
    case PutManifest =>
      && Working(s, d) && s.workers[d].stage.Copying? && s.workers[d].stage.done == |s.workers[d].stage.m.files|
      && s.workers[d].queue[0].0 in s.local && s.local[s.workers[d].queue[0].0].manifest.Some?
      && (d, s.workers[d].stage.dir, MANIFEST) !in s.remote
    case ConfirmManifest =>
      && Working(s, d) && s.workers[d].stage.Copying? && s.workers[d].stage.done == |s.workers[d].stage.m.files|
      && ManifestThere(w, s.remote, d, s.workers[d].stage.dir, s.workers[d].stage.m)
    case FinishUpload(_) => Working(s, d) && s.workers[d].stage.Copied?
    case FailUpload(status, _, _) => Working(s, d) && (status == Retry || status == PermanentFailure)
    case EndUploads => d in s.workers
  }

  ghost predicate CanClean(w: World, s: Sys, a: CleanStep) {
    match a
    case StartCleanup(captures, cutoff) => s.janitor.Idle? && forall id :: id in captures ==>
      RawCandidate(s.db, id, cutoff)
    case RemovePayload => s.janitor.RawPass? && |s.janitor.captures| > 0 && s.janitor.step == 0
    case RemoveSidecar => s.janitor.RawPass? && |s.janitor.captures| > 0 && s.janitor.step == 1
    case MarkRaw => s.janitor.RawPass? && |s.janitor.captures| > 0 && s.janitor.step == 2
    case StartParquet(revisions, cutoff) =>
      && s.janitor.RawPass? && s.janitor.captures == []
      && forall k :: k in revisions ==> ParquetCandidate(s.db, k, cutoff)
    case RemoveData => s.janitor.ParquetPass? && |s.janitor.revisions| > 0 && s.janitor.step == 0
    case RemoveManifest => s.janitor.ParquetPass? && |s.janitor.revisions| > 0 && s.janitor.step == 1
    case MarkParquet => s.janitor.ParquetPass? && |s.janitor.revisions| > 0 && s.janitor.step == 2
    case StartSummaries(days, cutoff) =>
      && s.janitor.ParquetPass? && s.janitor.revisions == []
      && forall day :: day in days ==> SummaryCandidate(s.db, day, cutoff)
    case SummariseNext(_, _, _) => s.janitor.SummaryPass? && |s.janitor.days| > 0
    case EndCleanup => s.janitor.RawPass? || s.janitor.ParquetPass? || s.janitor.SummaryPass?
  }

  ghost predicate CanOperate(w: World, s: Sys, a: OperatorStep) {
    match a
    case Crash => true
    case Damage(id, _) => id in s.raw.payloads
    case Adopt(k, _, _) =>
      && Exclusive(s) && k in s.catalog && k !in s.db.compactions
      && k in s.local && LocallyOk(w, s.local[k], s.catalog[k].manifest)
    case Backfill(_, _) => Exclusive(s)
    case Retire(_, _, _) => Exclusive(s)
  }

  ghost predicate Enabled(w: World, s: Sys, a: Action) {
    match a
    case Fetch(f) => CanFetch(w, s, f)
    case Compact(c) => CanCompact(w, s, c)
    case Upload(d, u) => CanUpload(w, s, d, u)
    case Clean(r) => CanClean(w, s, r)
    case Operate(o) => CanOperate(w, s, o)
  }

  function WithStage(s: Sys, d: string, stage: Stage): Sys
    requires d in s.workers
  {
    s.(workers := s.workers[d := s.workers[d].(stage := stage)])
  }

  function Popped(s: Sys, d: string): map<string, Worker>
    requires Working(s, d)
  {
    s.workers[d := Worker(s.workers[d].queue[1..], Between)]
  }

  function Allowed(s: Sys, k: Revision, allow: bool): set<Revision> {
    if allow then s.localOnly + {k} else s.localOnly
  }

  ghost function DoFetch(w: World, s: Sys, a: FetchStep): Sys
    requires CanFetch(w, s, a)
  {
    match a
    case CommitFiles(id, body) =>
      s.(raw := s.raw.(seen := s.raw.seen + {id}, payloads := s.raw.payloads[id := body],
                       sidecars := s.raw.sidecars + {id}))
    case Register(tick, id, c) =>
      var saved := SaveCapture(s.db, tick, id, c);
      if saved.None? then s else s.(db := saved.value, raw := s.raw.(registered := s.raw.registered + {id}))
    case NoteTick(id, tick) => s.(db := RecordTick(s.db, id, tick))
  }

  ghost function DoCompact(w: World, s: Sys, a: CompactStep): Sys
    requires CanCompact(w, s, a)
  {
    match a
    case StartCompacting => s.(janitor := Compacting(map[]))
    case StartJob(day, inputs) =>
      s.(janitor := Compacting(s.janitor.jobs[day.stream :=
        Job(Revision(day, NextRevision(s.db, day)), inputs, false)]))
    case WriteRevision(stream, p) =>
      var job := s.janitor.jobs[stream];
      s.(catalog := s.catalog[job.k := p], local := s.local[job.k := Full(p)],
         janitor := Compacting(s.janitor.jobs[stream := job.(written := true)]))
    case SaveRevision(stream, allow, now) =>
      var job := s.janitor.jobs[stream];
      var p := s.catalog[job.k];
      var saved := SaveCompaction(s.db, job.k, p.row(allow), p.ids, p.queue, now);
      s.(db := GetOr(saved, s.db), localOnly := Allowed(s, job.k, allow && saved.Some?),
         janitor := Compacting(s.janitor.jobs - {stream}))
    case DropJob(stream) => s.(janitor := Compacting(s.janitor.jobs - {stream}))
    case EndCompacting => s.(janitor := Idle)
  }

  ghost function DoUpload(w: World, s: Sys, d: string, a: UploadStep): Sys
    requires CanUpload(w, s, d, a)
  {
    match a
    case ListUploads(queue, now) => s.(workers := s.workers[d := Worker(queue, Between)])
    case BeginUpload(next) =>
      var u := s.workers[d].queue[0];
      var m := s.local[u.0].manifest.value;
      var dir := w.dirOf(d, m).value;
      WithStage(s, d, Attempted(m, dir)).(db := MarkUploadAttempt(s.db, u, dir, next))
    case CheckLocal => WithStage(s, d, Copying(s.workers[d].stage.m, s.workers[d].stage.dir, 0))
    case PutArtifact =>
      var stage := s.workers[d].stage;
      s.(remote := s.remote[(d, stage.dir, stage.m.files[stage.done].relativePath)
                            := DataObject(s.local[s.workers[d].queue[0].0].data.value)])
    case ConfirmArtifact =>
      var stage := s.workers[d].stage;
      WithStage(s, d, stage.(done := stage.done + 1))
    case PutManifest =>
      s.(remote := s.remote[(d, s.workers[d].stage.dir, MANIFEST)
                            := ManifestObject(s.local[s.workers[d].queue[0].0].manifest.value)])
    case ConfirmManifest => WithStage(s, d, Copied(s.workers[d].stage.m, s.workers[d].stage.dir))
    case FinishUpload(now) =>
      s.(db := GetOr(MarkUploadVerified(s.db, s.workers[d].queue[0], s.workers[d].stage.dir, now), s.db),
        workers := Popped(s, d))
    case FailUpload(status, detail, next) =>
      s.(db := MarkUploadFailed(s.db, s.workers[d].queue[0], status, detail, next), workers := Popped(s, d))
    case EndUploads => s.(workers := s.workers - {d})
  }

  ghost function DoClean(w: World, s: Sys, a: CleanStep): Sys
    requires CanClean(w, s, a)
  {
    match a
    case StartCleanup(captures, cutoff) => s.(janitor := RawPass(captures, 0))
    case RemovePayload =>
      s.(raw := s.raw.(payloads := s.raw.payloads - {s.janitor.captures[0]}), janitor := RawPass(s.janitor.captures, 1))
    case RemoveSidecar =>
      s.(raw := s.raw.(sidecars := s.raw.sidecars - {s.janitor.captures[0]}), janitor := RawPass(s.janitor.captures, 2))
    case MarkRaw =>
      s.(db := MarkCaptureRetained(s.db, s.janitor.captures[0]), janitor := RawPass(s.janitor.captures[1..], 0))
    case StartParquet(revisions, cutoff) => s.(janitor := ParquetPass(revisions, 0))
    case RemoveData =>
      var k := s.janitor.revisions[0];
      s.(local := if k in s.local then s.local[k := s.local[k].(data := None)]
        else s.local, janitor := ParquetPass(s.janitor.revisions, 1))
    case RemoveManifest =>
      var k := s.janitor.revisions[0];
      s.(local := if k in s.local then s.local[k := s.local[k].(manifest := None)]
        else s.local, janitor := ParquetPass(s.janitor.revisions, 2))
    case MarkParquet =>
      s.(db := MarkParquetRetained(s.db, s.janitor.revisions[0]), janitor := ParquetPass(s.janitor.revisions[1..], 0))
    case StartSummaries(days, cutoff) => s.(janitor := SummaryPass(days))
    case SummariseNext(start, end, now) =>
      var r := SummarizeDay(s.db, s.janitor.days[0], start, end, now);
      if r.Failed? then s.(janitor := Idle)
      else s.(db := if r.Done? then r.db else s.db, janitor := SummaryPass(s.janitor.days[1..]))
    case EndCleanup => s.(janitor := Idle)
  }

  ghost function DoOperate(w: World, s: Sys, a: OperatorStep): Sys
    requires CanOperate(w, s, a)
  {
    match a
    case Crash => s.(workers := map[], janitor := Idle)
    case Damage(id, left) =>
      var payloads := if left.Some? then s.raw.payloads[id := left.value] else s.raw.payloads - {id};
      s.(raw := s.raw.(damaged := s.raw.damaged + {id}, payloads := payloads))
    case Adopt(k, allow, now) =>
      var p := s.catalog[k];
      var adopted := AdoptCompaction(s.db, k, p.row(allow), p.inputs, p.excluded, p.queue, now);
      s.(db := GetOr(adopted, s.db), localOnly := Allowed(s, k, allow && adopted.Some?))
    case Backfill(d, now) => s.(db := EnsureDestinationBackfill(s.db, d, now))
    case Retire(d, reason, now) => s.(db := RetireDestination(s.db, d, reason, now))
  }

  /** The state after an enabled action. */
  ghost function Next(w: World, s: Sys, a: Action): Sys
    requires Enabled(w, s, a)
  {
    match a
    case Fetch(f) => DoFetch(w, s, f)
    case Compact(c) => DoCompact(w, s, c)
    case Upload(d, u) => DoUpload(w, s, d, u)
    case Clean(r) => DoClean(w, s, r)
    case Operate(o) => DoOperate(w, s, o)
  }

  const START: Sys := Sys(StateLaws.EMPTY, RawFiles({}, {}, map[], {}, {}), map[], map[], map[], map[], Idle, {})

  /** A run from an empty archive; actions that are not enabled are passed over. */
  ghost function Run(w: World, actions: seq<Action>): Sys {
    if |actions| == 0 then START
    else
      var s := Run(w, actions[..|actions|-1]);
      if Enabled(w, s, actions[|actions|-1]) then Next(w, s, actions[|actions|-1]) else s
  }
}
