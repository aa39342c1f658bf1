/** The archive does what it is for: from nothing, a capture is committed, compacted, uploaded to its destination, and
    its raw payload comes up for deletion. The safety theorems are about states that runs do reach. */
module LifecycleWitness {
  import opened Prelude
  import opened Tables
  import opened Lifecycle
  import A = Artifact

  ghost predicate Reachable(w: World, s: Sys) {
    exists actions :: Run(w, actions) == s
  }

  lemma StepReaches(w: World, s: Sys, a: Action)
    requires Reachable(w, s) && Enabled(w, s, a)
    ensures Reachable(w, Next(w, s, a))
  {
    var actions :| Run(w, actions) == s;
    assert (actions + [a])[..|actions|] == actions;
    assert Run(w, actions + [a]) == Next(w, s, a);
  }

  lemma StartReached(w: World)
    ensures Reachable(w, START)
  {
    assert Run(w, []) == START;
  }

  /** One capture's way: its row, the package of its day, the one destination with its directory, whether that is
      required, and whether local-only cleanup is allowed. */
  datatype Way = Way(id: string, body: A.Bytes, c: Capture, p: Package, d: string, dir: string, required: bool,
                     allow: bool)

  function RevisionOf(y: Way): Revision {
    Revision(y.c.day, 1)
  }

  function InputOf(y: Way): Input {
    Input(y.id, y.c.sha256)
  }

  /** Compaction of the capture alone can produce the package, with one artifact, intact, and a place to publish it. */
  ghost predicate Shippable(w: World, y: Way) {
    && y.c.rawPath.Live? && w.digest(y.body) == y.c.sha256 && y.p.read == map[y.id := y.body]
    && w.good(RevisionOf(y), y.p) && y.p.ids == [y.id] && y.p.inputs == [InputOf(y)]
       && y.p.queue == map[y.d := y.required]
    && |y.p.manifest.files| == 1 && y.p.manifest.files[0].relativePath != MANIFEST && y.p.data.Some?
    && LocallyOk(w, Full(y.p), y.p.manifest) && w.dirOf(y.d, y.p.manifest) == Some(y.dir)
  }

  /** The capture is on disk and in the tables, and nothing else is. */
  ghost predicate Captured(s: Sys, y: Way) {
    && s.db.captures == map[y.id := y.c] && s.db.compactions == map[] && s.db.inputs == {} && s.db.uploads == map[]
    && s.raw.payloads == map[y.id := y.body] && s.raw.damaged == {}
    && s.catalog == map[] && s.local == map[] && s.remote == map[] && s.workers == map[] && s.janitor == Idle
  }

  lemma CaptureReached(w: World, tick: Tick, y: Way) returns (s: Sys)
    requires y.c.rawPath.Live? && w.digest(y.body) == y.c.sha256
    ensures Reachable(w, s) && Captured(s, y)
  {
    StartReached(w);
    StepReaches(w, START, Fetch(CommitFiles(y.id, y.body)));
    var s1 := DoFetch(w, START, CommitFiles(y.id, y.body));
    StepReaches(w, s1, Fetch(Register(tick, y.id, y.c)));
    s := DoFetch(w, s1, Register(tick, y.id, y.c));
  }

  /** The revision directory is written by the one job. */
  ghost predicate Written(s: Sys, y: Way) {
    var k := RevisionOf(y);
    && s.db.captures == map[y.id := y.c] && s.db.compactions == map[] && s.db.inputs == {} && s.db.uploads == map[]
    && s.catalog.Keys == {k} && s.catalog[k] == y.p && s.local == map[k := Full(y.p)] && s.remote == map[]
       && s.workers == map[]
    && s.janitor == Compacting(map[y.c.day.stream := Job(k, [InputOf(y)], true)])
  }

  lemma JobReached(w: World, s: Sys, y: Way) returns (t: Sys)
    requires Reachable(w, s) && Captured(s, y)
    ensures Reachable(w, t) && t == s.(janitor := Compacting(map[y.c.day.stream :=
      Job(RevisionOf(y), [InputOf(y)], false)]))
  {
    assert RevisionNumbers(s.db, y.c.day) == {};
    StepReaches(w, s, Compact(StartCompacting));
    var s1 := DoCompact(w, s, StartCompacting);
    assert InputIds([InputOf(y)]) == [y.id];
    assert DayCaptures(s1.db, y.c.day) == {y.id};
    StepReaches(w, s1, Compact(StartJob(y.c.day, [InputOf(y)])));
    t := DoCompact(w, s1, StartJob(y.c.day, [InputOf(y)]));
  }

  lemma WritingReached(w: World, s: Sys, y: Way) returns (t: Sys)
    requires Reachable(w, s) && Captured(s, y) && Shippable(w, y)
    ensures Reachable(w, t) && Written(t, y)
  {
    var s1 := JobReached(w, s, y);
    assert InputIds([InputOf(y)]) == [y.id];
    StepReaches(w, s1, Compact(WriteRevision(y.c.day.stream, y.p)));
    t := DoCompact(w, s1, WriteRevision(y.c.day.stream, y.p));
  }

  /** The revision is on disk and recorded, with its one upload pending. */
  ghost predicate Stored(s: Sys, y: Way, now: int) {
    var k := RevisionOf(y);
    && s.db.captures == map[y.id := y.c] && s.db.compactions == map[k := y.p.row(y.allow)] && s.db.inputs == {(k, y.id)}
    && s.db.uploads == map[(k, y.d) := QueuedUpload(y.required, now)]
    && s.local == map[k := Full(y.p)] && s.remote == map[] && s.workers == map[] && s.janitor == Idle
  }

  lemma SavedTables(db: DB, k: Revision, row: Compaction, id: string, d: string, required: bool, now: int)
    requires db.compactions == map[] && db.inputs == {} && db.uploads == map[] && id in db.captures
    ensures SaveCompaction(db, k, row, [id], map[d := required], now)
      == Some(db.(compactions := map[k := row], inputs := {(k, id)},
        uploads := map[(k, d) := QueuedUpload(required, now)]))
  {
    assert Links(k, [id]) == {(k, id)};
    assert Queue(k, map[d := required], now) == map[(k, d) := QueuedUpload(required, now)];
    assert db.uploads + Queue(k, map[d := required], now) == map[(k, d) := QueuedUpload(required, now)];
    assert db.inputs + Links(k, [id]) == {(k, id)};
  }

  lemma RecordReached(w: World, s: Sys, y: Way, now: int) returns (t: Sys)
    requires Reachable(w, s) && Written(s, y) && y.p.ids == [y.id] && y.p.queue == map[y.d := y.required]
    ensures Reachable(w, t) && Stored(t, y, now)
  {
    SavedTables(s.db, RevisionOf(y), y.p.row(y.allow), y.id, y.d, y.required, now);
    StepReaches(w, s, Compact(SaveRevision(y.c.day.stream, y.allow, now)));
    var s1 := DoCompact(w, s, SaveRevision(y.c.day.stream, y.allow, now));
    StepReaches(w, s1, Compact(EndCompacting));
    t := DoCompact(w, s1, EndCompacting);
  }

  /** The worker holds the row at the given stage. */
  ghost predicate InHand(s: Sys, y: Way, stage: Stage) {
    var k := RevisionOf(y);
    && s.db.captures == map[y.id := y.c] && s.db.compactions == map[k := y.p.row(y.allow)] && s.db.inputs == {(k, y.id)}
    && s.db.uploads.Keys == {(k, y.d)} && s.db.uploads[(k, y.d)].required == y.required
    && s.db.uploads[(k, y.d)].status == Uploading
    && s.local == map[k := Full(y.p)] && s.janitor == Idle
    && y.d in s.workers && s.workers[y.d] == Worker([(k, y.d)], stage)
  }

  lemma AttemptReached(w: World, s: Sys, y: Way, now: int) returns (t: Sys)
    requires WorldOk(w) && Reachable(w, s) && Stored(s, y, now) && Shippable(w, y)
    ensures Reachable(w, t) && InHand(t, y, Attempted(y.p.manifest, y.dir)) && t.remote == map[]
  {
    var queue := [(RevisionOf(y), y.d)];
    StepReaches(w, s, Action.Upload(y.d, ListUploads(queue, now)));
    t := DoUpload(w, s, y.d, ListUploads(queue, now));
    t := BeginReached(w, s, t, y, now);
  }

  lemma BeginReached(w: World, s: Sys, r: Sys, y: Way, now: int) returns (t: Sys)
    requires WorldOk(w) && Stored(s, y, now) && Shippable(w, y)
    requires Reachable(w, r) && r == s.(workers := s.workers[y.d := Worker([(RevisionOf(y), y.d)], Between)])
    ensures Reachable(w, t) && InHand(t, y, Attempted(y.p.manifest, y.dir)) && t.remote == map[]
  {
    StepReaches(w, r, Action.Upload(y.d, BeginUpload(now)));
    t := DoUpload(w, r, y.d, BeginUpload(now));
  }

  lemma ShipmentReached(w: World, s: Sys, y: Way) returns (t: Sys)
    requires Reachable(w, s) && InHand(s, y, Attempted(y.p.manifest, y.dir)) && s.remote == map[] && Shippable(w, y)
    ensures Reachable(w, t) && InHand(t, y, Copying(y.p.manifest, y.dir, 1)) && (y.d, y.dir, MANIFEST) !in t.remote
  {
    StepReaches(w, s, Action.Upload(y.d, CheckLocal));
    t := DoUpload(w, s, y.d, CheckLocal);
    t := ArtifactReached(w, t, y);
  }

  lemma ArtifactReached(w: World, s: Sys, y: Way) returns (t: Sys)
    requires Reachable(w, s) && InHand(s, y, Copying(y.p.manifest, y.dir, 0)) && s.remote == map[] && Shippable(w, y)
    ensures Reachable(w, t) && InHand(t, y, Copying(y.p.manifest, y.dir, 1)) && (y.d, y.dir, MANIFEST) !in t.remote
  {
    StepReaches(w, s, Action.Upload(y.d, PutArtifact));
    var s1 := DoUpload(w, s, y.d, PutArtifact);
    StepReaches(w, s1, Action.Upload(y.d, ConfirmArtifact));
    t := DoUpload(w, s1, y.d, ConfirmArtifact);
  }

  lemma ManifestReached(w: World, s: Sys, y: Way) returns (t: Sys)
    requires Reachable(w, s) && InHand(s, y, Copying(y.p.manifest, y.dir, 1)) && |y.p.manifest.files| == 1
    requires (y.d, y.dir, MANIFEST) !in s.remote
    ensures Reachable(w, t) && InHand(t, y, Copied(y.p.manifest, y.dir))
  {
    StepReaches(w, s, Action.Upload(y.d, PutManifest));
    var s1 := DoUpload(w, s, y.d, PutManifest);
    StepReaches(w, s1, Action.Upload(y.d, ConfirmManifest));
    t := DoUpload(w, s1, y.d, ConfirmManifest);
  }

  /** Everything is at the destination; the row is not marked yet. */
  lemma CopyReached(w: World, tick: Tick, y: Way, now: int) returns (t: Sys)
    requires WorldOk(w) && Shippable(w, y)
    ensures Reachable(w, t) && InHand(t, y, Copied(y.p.manifest, y.dir))
  {
    var s := CaptureReached(w, tick, y);
    s := WritingReached(w, s, y);
    s := RecordReached(w, s, y, now);
    s := AttemptReached(w, s, y, now);
    s := ShipmentReached(w, s, y);
    t := ManifestReached(w, s, y);
  }

  /** The upload is verified and its revision published. */
  ghost predicate Delivered(s: Sys, y: Way, now: int) {
    var k := RevisionOf(y);
    && s.db.captures == map[y.id := y.c] && s.db.inputs == {(k, y.id)} && s.janitor == Idle
    && k in s.db.compactions && s.db.compactions[k].publishedAt == Some(now)
  }

  lemma DeliveryReached(w: World, s: Sys, y: Way, now: int) returns (t: Sys)
    requires Reachable(w, s) && InHand(s, y, Copied(y.p.manifest, y.dir))
    ensures Reachable(w, t) && Delivered(t, y, now)
  {
    StepReaches(w, s, Action.Upload(y.d, FinishUpload(now)));
    t := DoUpload(w, s, y.d, FinishUpload(now));
  }

  lemma RetentionReached(w: World, s: Sys, y: Way, now: int) returns (t: Sys)
    requires y.c.rawPath.Live? && Reachable(w, s) && Delivered(s, y, now)
    ensures Reachable(w, t) && CanClean(w, t, RemovePayload) && t.janitor.captures == [y.id]
  {
    assert (RevisionOf(y), y.id) in s.db.inputs;
    StepReaches(w, s, Clean(StartCleanup([y.id], now)));
    t := DoClean(w, s, StartCleanup([y.id], now));
  }

  /** For every capture and every package that can ship it, some run ends with the deletion of its payload enabled. */
  lemma DeletionIsReachable(w: World, tick: Tick, y: Way, now: int)
    requires WorldOk(w) && Shippable(w, y)
    ensures exists actions :: CanClean(w, Run(w, actions), RemovePayload) && Run(w, actions).janitor.captures == [y.id]
  {
    var s := CopyReached(w, tick, y, now);
    s := DeliveryReached(w, s, y, now);
    s := RetentionReached(w, s, y, now);
    var actions :| Run(w, actions) == s;
    assert CanClean(w, Run(w, actions), RemovePayload);
  }
}
