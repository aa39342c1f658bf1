/** What every run of the archive keeps: nothing is deleted locally before it is published, and whatever is recorded
    as published is there. */
module LifecycleSafety {
  import opened Prelude
  import opened Tables
  import opened Lifecycle
  import A = Artifact
  import C = Compact
  import StateLaws

  // ---- the invariant, by component ----

  /** Only optional rows expire, only required rows are retired. */
  predicate StatusesOk(db: DB) {
    forall u :: u in db.uploads ==> StatusOk(db.uploads[u])
  }

  predicate StatusOk(row: Upload) {
    row.status != (if row.required then Expired else RetiredByOperator)
  }

  /** A row that can account for a publication. */
  predicate Vouches(db: DB, k: Revision, u: UploadKey) {
    u in db.uploads && u.0 == k && Settled(db.uploads[u].status)
  }

  /** Without local-only cleanup only a settled upload publishes. */
  ghost predicate PublicationsOk(db: DB, localOnly: set<Revision>) {
    forall k :: Published(db, k) ==> k in localOnly || exists u :: Vouches(db, k, u)
  }

  ghost predicate AllGapless(db: DB) {
    forall day :: StateLaws.Gapless(db, day)
  }

  ghost predicate DbOk(db: DB) {
    StateLaws.ForeignKeys(db) && StateLaws.GateExact(db) && StatusesOk(db) && AllGapless(db)
  }

  predicate Agrees(l: LocalFiles, p: Package) {
    (l.manifest.Some? ==> l.manifest == Some(p.manifest)) && (l.data.Some? ==> l.data == p.data)
  }

  /** A revision keeps its complete local files until it is published; the directories without a row are the next
      revision of their day. */
  ghost predicate RevisionOk(w: World, db: DB, catalog: map<Revision, Package>, local: map<Revision, LocalFiles>,
                             k: Revision) {
    && k in catalog && k in local && w.good(k, catalog[k]) && Agrees(local[k], catalog[k])
    && (!Published(db, k) ==> local[k] == Full(catalog[k]))
    && (k in db.compactions || k.number == NextRevision(db, k.day))
  }

  ghost predicate CatalogOk(w: World, db: DB, catalog: map<Revision, Package>, local: map<Revision, LocalFiles>) {
    && local.Keys == catalog.Keys
    && (forall k :: k in catalog ==> RevisionOk(w, db, catalog, local, k))
    && (forall k :: k in db.compactions ==>
        k in catalog && (!Published(db, k) ==> db.compactions[k].manifestPath != ""))
    && (forall i :: i in db.inputs ==> Recorded(db, catalog, i))
  }

  /** The revision was made from this capture row: its manifest records the hash the row has. */
  predicate Recorded(db: DB, catalog: map<Revision, Package>, i: (Revision, string)) {
    && i.0 in catalog && i.1 in catalog[i.0].ids
    && i.1 in db.captures && Input(i.1, db.captures[i.1].sha256) in catalog[i.0].inputs
  }

  /** A manifest at a remote directory has its artifacts there, with their recorded hashes. */
  predicate ManifestLast(w: World, remote: map<Address, Object>) {
    forall a: Address :: a in remote && a.2 == MANIFEST && remote[a].ManifestObject? ==>
      ArtifactsThere(w, remote, a.0, a.1, remote[a].m.files)
  }

  predicate RevisionThere(w: World, remote: map<Address, Object>, d: string, dir: string, m: C.Manifest) {
    ManifestThere(w, remote, d, dir, m) && ArtifactsThere(w, remote, d, dir, m.files)
  }

  /** A verified row means the remote holds the revision. */
  predicate VerifiedOk(w: World, db: DB, catalog: map<Revision, Package>, remote: map<Address, Object>) {
    forall u :: u in db.uploads && db.uploads[u].status == Verified ==>
      u.0 in catalog && RevisionThere(w, remote, u.1, db.uploads[u].remotePath, catalog[u.0].manifest)
  }

  /** A row in a worker's hands is its destination's and not settled by anyone else. */
  predicate RowOk(db: DB, d: string, u: UploadKey) {
    && u in db.uploads && u.1 == d && db.uploads[u].status != Verified
    && (db.uploads[u].required ==> !Settled(db.uploads[u].status))
  }

  predicate StageOk(w: World, catalog: map<Revision, Package>, remote: map<Address, Object>, d: string, wk: Worker) {
    !wk.stage.Between? ==>
      && |wk.queue| > 0 && wk.queue[0].0 in catalog && wk.stage.m == catalog[wk.queue[0].0].manifest
      && (wk.stage.Copying? ==>
          wk.stage.done <= |wk.stage.m.files| && ArtifactsThere(w, remote, d, wk.stage.dir,
            wk.stage.m.files[..wk.stage.done]))
      && (wk.stage.Copied? ==> RevisionThere(w, remote, d, wk.stage.dir, wk.stage.m))
  }

  predicate WorkerOk(w: World, db: DB, catalog: map<Revision, Package>, remote: map<Address, Object>, d: string,
                     wk: Worker) {
    Distinct(wk.queue) && (forall u :: u in wk.queue ==> RowOk(db, d, u)) && StageOk(w, catalog, remote, d, wk)
  }

  predicate WorkersOk(w: World, db: DB, catalog: map<Revision, Package>, remote: map<Address, Object>,
                      workers: map<string, Worker>) {
    forall d :: d in workers ==> WorkerOk(w, db, catalog, remote, d, workers[d])
  }

  ghost predicate JobOk(db: DB, catalog: map<Revision, Package>, stream: Stream, job: Job) {
    && job.k.day.stream == stream && job.k !in db.compactions && job.k.number == NextRevision(db, job.k.day)
    && (if job.written then job.k in catalog && catalog[job.k].inputs == job.inputs
       && catalog[job.k].ids == InputIds(job.inputs)
        else job.k !in catalog)
    && forall i :: i in job.inputs ==> Held(db, i)
  }

  ghost predicate JanitorOk(db: DB, catalog: map<Revision, Package>, raw: RawFiles,
                            j: Janitor) {
    match j
    case Idle => true
    case Compacting(jobs) => forall stream :: stream in jobs ==> JobOk(db, catalog, stream, jobs[stream])
    case RawPass(captures, step) =>
      && (forall id :: id in captures ==> id in db.captures && StateLaws.Released(db, id))
      && (|captures| > 0 ==>
          (step >= 1 ==> captures[0] !in raw.payloads) && (step >= 2 ==> captures[0] !in raw.sidecars))
    case ParquetPass(revisions, _) => forall k :: k in revisions ==> Published(db, k)
    case SummaryPass(_) => true
  }

  /** A registered capture without a live row has no files left to be registered again, and an undamaged payload has the
      hash its row records. */
  predicate FilesOk(w: World, db: DB, raw: RawFiles) {
    && db.captures.Keys <= raw.registered <= raw.seen && raw.payloads.Keys <= raw.seen && raw.sidecars <= raw.seen
    && (forall id :: id in raw.registered && (id !in db.captures || db.captures[id].rawPath.Retained?) ==>
        id !in raw.payloads && id !in raw.sidecars)
    && forall id :: id in db.captures ==> Hashed(w, db, raw, id)
  }

  predicate Hashed(w: World, db: DB, raw: RawFiles, id: string)
    requires id in db.captures
  {
    id in raw.payloads && id !in raw.damaged ==> w.digest(raw.payloads[id]) == db.captures[id].sha256
  }

  /** What a compaction read of a capture is what its payload still holds, unless it was damaged. */
  predicate ReadsOk(catalog: map<Revision, Package>, raw: RawFiles) {
    forall k, id :: k in catalog && id in catalog[k].read ==> Unchanged(catalog[k].read, raw, id)
  }

  predicate Unchanged(read: map<string, A.Bytes>, raw: RawFiles, id: string)
    requires id in read
  {
    id in raw.seen && (id in raw.payloads && id !in raw.damaged ==> raw.payloads[id] == read[id])
  }

  ghost predicate Inv(w: World, s: Sys) {
    && DbOk(s.db) && CatalogOk(w, s.db, s.catalog, s.local) && ManifestLast(w, s.remote)
    && VerifiedOk(w, s.db, s.catalog, s.remote) && WorkersOk(w, s.db, s.catalog, s.remote, s.workers)
    && JanitorOk(s.db, s.catalog, s.raw, s.janitor)
    && FilesOk(w, s.db, s.raw)
    && PublicationsOk(s.db, s.localOnly) && ReadsOk(s.catalog, s.raw)
  }

  // ---- transactions that add no revision ----

  predicate RowKept(a: Upload, b: Upload) {
    && (b.status == Verified <==> a.status == Verified)
    && (a.required ==> (Settled(b.status) <==> Settled(a.status)))
  }

  /** Publication, verification and settlement only go forward; rows outside `moved` do not change sides. */
  ghost predicate Follows(db: DB, e: DB, moved: set<UploadKey>) {
    && e.compactions.Keys == db.compactions.Keys && e.inputs <= db.inputs
    && (forall k :: k in db.compactions && Published(db, k) ==> Published(e, k))
    && (forall k :: k in db.compactions && !Published(e, k) ==>
       e.compactions[k].manifestPath == db.compactions[k].manifestPath)
    && (forall u :: u in db.uploads ==> u in e.uploads && RowFollows(db.uploads[u], e.uploads[u]))
    && (forall u :: u in db.uploads && u !in moved ==> u in e.uploads && RowKept(db.uploads[u], e.uploads[u]))
    && (forall u :: u in e.uploads && u !in db.uploads ==> !e.uploads[u].required && e.uploads[u].status != Verified)
    && (forall id :: id in db.captures && id in e.captures ==> e.captures[id].sha256 == db.captures[id].sha256)
    && (forall k :: Published(e, k) && !Published(db, k) ==> exists u :: Vouches(e, k, u))
  }

  predicate RowFollows(a: Upload, b: Upload) {
    && b.required == a.required
    && (a.status == Verified ==> b.status == Verified && b.remotePath == a.remotePath)
    && (Settled(a.status) ==> Settled(b.status))
  }

  lemma SameKeysSameNumbers(db: DB, e: DB, day: Day)
    requires forall k: Revision :: k.day == day ==> (k in e.compactions <==> k in db.compactions)
    ensures RevisionNumbers(e, day) == RevisionNumbers(db, day) && NextRevision(e, day) == NextRevision(db, day)
    ensures StateLaws.Gapless(db, day) ==> StateLaws.Gapless(e, day)
  {
    assert RevisionNumbers(e, day) == RevisionNumbers(db, day);
  }

  lemma FollowsCatalog(w: World, db: DB, e: DB, moved: set<UploadKey>, catalog: map<Revision, Package>,
                       local: map<Revision, LocalFiles>)
    requires Follows(db, e, moved) && CatalogOk(w, db, catalog, local) && StateLaws.ForeignKeys(e)
    ensures CatalogOk(w, e, catalog, local)
  {
    FollowsInputs(db, e, moved, catalog);
    forall k | k in catalog ensures RevisionOk(w, e, catalog, local, k) {
      FollowsRevision(w, db, e, moved, catalog, local, k);
    }
  }

  lemma FollowsInputs(db: DB, e: DB, moved: set<UploadKey>, catalog: map<Revision, Package>)
    requires Follows(db, e, moved) && StateLaws.ForeignKeys(e)
    requires forall i :: i in db.inputs ==> Recorded(db, catalog, i)
    ensures forall i :: i in e.inputs ==> Recorded(e, catalog, i)
  {
    assert forall i :: i in e.inputs ==> Recorded(db, catalog, i);
  }

  lemma FollowsRevision(w: World, db: DB, e: DB, moved: set<UploadKey>, catalog: map<Revision, Package>,
                        local: map<Revision, LocalFiles>, k: Revision)
    requires Follows(db, e, moved) && RevisionOk(w, db, catalog, local, k)
    ensures RevisionOk(w, e, catalog, local, k)
  {
    SameKeysSameNumbers(db, e, k.day);
  }

  lemma FollowsVerified(w: World, db: DB, e: DB, moved: set<UploadKey>, catalog: map<Revision, Package>,
                        remote: map<Address, Object>)
    requires Follows(db, e, moved) && VerifiedOk(w, db, catalog, remote)
    requires forall u :: u in moved && u in e.uploads && e.uploads[u].status == Verified ==>
      u.0 in catalog && RevisionThere(w, remote, u.1, e.uploads[u].remotePath, catalog[u.0].manifest)
    ensures VerifiedOk(w, e, catalog, remote)
  {
  }

  lemma FollowsWorker(w: World, db: DB, e: DB, moved: set<UploadKey>, catalog: map<Revision, Package>,
                      remote: map<Address, Object>,
                      d: string, wk: Worker)
    requires Follows(db, e, moved) && WorkerOk(w, db, catalog, remote, d, wk)
    requires forall u :: u in wk.queue ==> u !in moved
    ensures WorkerOk(w, e, catalog, remote, d, wk)
  {
    forall u | u in wk.queue ensures RowOk(e, d, u) {
      assert RowOk(db, d, u);
    }
  }

  lemma FollowsPublications(db: DB, e: DB, moved: set<UploadKey>, localOnly: set<Revision>)
    requires Follows(db, e, moved) && PublicationsOk(db, localOnly)
    ensures PublicationsOk(e, localOnly)
  {
    forall k | Published(e, k) && k !in localOnly ensures exists u :: Vouches(e, k, u) {
      if Published(db, k) {
        var u :| Vouches(db, k, u);
        assert Vouches(e, k, u);
      }
    }
  }

  lemma FollowsReleased(db: DB, e: DB, moved: set<UploadKey>, id: string)
    requires Follows(db, e, moved) && e.inputs == db.inputs && StateLaws.ForeignKeys(db) && StateLaws.Released(db, id)
    ensures StateLaws.Released(e, id)
  {
    forall i | i in e.inputs && i.1 == id
      ensures Published(e, i.0) && forall u :: u in e.uploads && u.0 == i.0 && e.uploads[u].required ==>
        Settled(e.uploads[u].status)
    {
      assert i in db.inputs && Published(db, i.0);
    }
  }

  lemma FollowsJanitor(db: DB, e: DB, moved: set<UploadKey>, catalog: map<Revision, Package>, raw: RawFiles, j: Janitor)
    requires Follows(db, e, moved) && e.inputs == db.inputs && db.captures.Keys <= e.captures.Keys
      && StateLaws.ForeignKeys(db)
    requires JanitorOk(db, catalog, raw, j)
    ensures JanitorOk(e, catalog, raw, j)
  {
    match j {
      case Compacting(jobs) =>
        forall stream | stream in jobs ensures JobOk(e, catalog, stream, jobs[stream]) {
          assert JobOk(db, catalog, stream, jobs[stream]);
          SameKeysSameNumbers(db, e, jobs[stream].k.day);
        }
      case RawPass(captures, _) =>
        forall id | id in captures ensures StateLaws.Released(e, id) {
          FollowsReleased(db, e, moved, id);
        }
      case _ =>
    }
  }

  /** A transaction that keeps the tables in order and every input and capture row. */
  ghost predicate Moves(db: DB, e: DB, moved: set<UploadKey>) {
    DbOk(e) && Follows(db, e, moved) && e.inputs == db.inputs && db.captures.Keys <= e.captures.Keys
  }

  /** The tables changed and nothing else. */
  lemma Transacted(w: World, s: Sys, e: DB, moved: set<UploadKey>)
    requires Inv(w, s) && Moves(s.db, e, moved)
    requires forall u :: u in moved && u in e.uploads && e.uploads[u].status == Verified ==>
      u.0 in s.catalog && RevisionThere(w, s.remote, u.1, e.uploads[u].remotePath, s.catalog[u.0].manifest)
    ensures CatalogOk(w, e, s.catalog, s.local) && VerifiedOk(w, e, s.catalog, s.remote)
      && PublicationsOk(e, s.localOnly)
    ensures JanitorOk(e, s.catalog, s.raw, s.janitor)
    ensures forall d :: d in s.workers && (forall u :: u in s.workers[d].queue ==> u !in moved) ==>
      WorkerOk(w, e, s.catalog, s.remote, d, s.workers[d])
  {
    FollowsCatalog(w, s.db, e, moved, s.catalog, s.local);
    FollowsVerified(w, s.db, e, moved, s.catalog, s.remote);
    FollowsPublications(s.db, e, moved, s.localOnly);
    FollowsJanitor(s.db, e, moved, s.catalog, s.raw, s.janitor);
    forall d | d in s.workers && (forall u :: u in s.workers[d].queue ==> u !in moved)
      ensures WorkerOk(w, e, s.catalog, s.remote, d, s.workers[d])
    {
      FollowsWorker(w, s.db, e, moved, s.catalog, s.remote, d, s.workers[d]);
    }
  }

  lemma SameFiles(w: World, db: DB, e: DB, raw: RawFiles)
    requires FilesOk(w, db, raw) && e.captures == db.captures
    ensures FilesOk(w, e, raw)
  {
    forall id | id in e.captures ensures Hashed(w, e, raw, id) {
      assert Hashed(w, db, raw, id);
    }
  }

  /** No row changed hands: everything but the files is in order. */
  lemma TransactedQuietly(w: World, s: Sys, e: DB)
    requires Inv(w, s) && Moves(s.db, e, {}) && FilesOk(w, e, s.raw)
    ensures Inv(w, s.(db := e))
  {
    Transacted(w, s, e, {});
  }

  lemma DbOkAfter(db: DB, t: StateLaws.Transaction)
    requires DbOk(db) && StateLaws.Admissible(db, t)
    requires StateLaws.Apply(db, t).compactions.Keys == db.compactions.Keys && StatusesOk(StateLaws.Apply(db, t))
    ensures DbOk(StateLaws.Apply(db, t))
  {
    StateLaws.ForeignKeysKept(db, t);
    StateLaws.GateKept(db, t);
    forall day ensures StateLaws.Gapless(StateLaws.Apply(db, t), day) {
      SameKeysSameNumbers(db, StateLaws.Apply(db, t), day);
    }
  }

  // ---- the transactions, one by one ----

  lemma CaptureMoves(db: DB, tick: Tick, id: string, c: Capture)
    requires DbOk(db) && SaveCapture(db, tick, id, c).Some?
    ensures Moves(db, SaveCapture(db, tick, id, c).value, {})
  {
    DbOkAfter(db, StateLaws.CaptureSaved(tick, id, c));
  }

  lemma TickMoves(db: DB, id: string, tick: Tick)
    requires DbOk(db)
    ensures Moves(db, RecordTick(db, id, tick), {})
  {
    DbOkAfter(db, StateLaws.TickRecorded(id, tick));
  }

  lemma RowMoves(db: DB, e: DB, u: UploadKey, moved: set<UploadKey>)
    requires u in db.uploads && StatusesOk(db) && e.compactions == db.compactions && e.inputs == db.inputs
      && e.captures == db.captures
    requires u in e.uploads && e.uploads == db.uploads[u := e.uploads[u]]
    requires RowFollows(db.uploads[u], e.uploads[u]) && (u in moved || RowKept(db.uploads[u], e.uploads[u]))
    requires StatusOk(e.uploads[u])
    ensures Follows(db, e, moved) && StatusesOk(e)
  {
  }

  lemma AttemptMoves(db: DB, d: string, u: UploadKey, dir: string, next: int)
    requires DbOk(db) && RowOk(db, d, u)
    ensures Moves(db, MarkUploadAttempt(db, u, dir, next), {})
  {
    RowMoves(db, MarkUploadAttempt(db, u, dir, next), u, {});
    DbOkAfter(db, StateLaws.UploadAttempted(u, dir, next));
  }

  lemma FailMoves(db: DB, d: string, u: UploadKey, status: Status, detail: string, next: int)
    requires DbOk(db) && RowOk(db, d, u) && (status == Retry || status == PermanentFailure)
    ensures Moves(db, MarkUploadFailed(db, u, status, detail, next), {u})
  {
    RowMoves(db, MarkUploadFailed(db, u, status, detail, next), u, {u});
    DbOkAfter(db, StateLaws.UploadFailed(u, status, detail, next));
  }

  lemma VerifyFollows(db: DB, d: string, u: UploadKey, dir: string, now: int)
    requires StatusesOk(db) && RowOk(db, d, u)
    ensures MarkUploadVerified(db, u, dir, now).Some?
    ensures var e := MarkUploadVerified(db, u, dir, now).value;
      Follows(db, e, {u}) && StatusesOk(e) && e.captures == db.captures && e.inputs == db.inputs
  {
    var e := MarkUploadVerified(db, u, dir, now).value;
    var f := db.(uploads := e.uploads);
    RowMoves(db, f, u, {u});
    if e != f { PublicationFollows(db, f, u, now); }
  }

  lemma PublicationFollows(db: DB, e: DB, u: UploadKey, now: int)
    requires Follows(db, e, {u}) && u.0 in e.compactions && Vouches(e, u.0, u)
    ensures Follows(db, e.(compactions := e.compactions[u.0 := Publish(e.compactions[u.0], now)]), {u})
  {
    var f := e.(compactions := e.compactions[u.0 := Publish(e.compactions[u.0], now)]);
    forall k | Published(f, k) && !Published(db, k) ensures exists v :: Vouches(f, k, v) {
      if k == u.0 {
        assert Vouches(f, k, u);
      } else {
        assert Published(e, k);
        var v :| Vouches(e, k, v);
        assert Vouches(f, k, v);
      }
    }
  }

  lemma VerifyMoves(db: DB, d: string, u: UploadKey, dir: string, now: int)
    requires DbOk(db) && RowOk(db, d, u)
    ensures MarkUploadVerified(db, u, dir, now).Some? && Moves(db, MarkUploadVerified(db, u, dir, now).value, {u})
  {
    VerifyFollows(db, d, u, dir, now);
    DbOkAfter(db, StateLaws.UploadVerified(u, dir, now));
  }

  /** Nothing but ticks, captures, inputs and summaries changed, and no capture's hash. */
  lemma RowsAsideFollow(db: DB, e: DB)
    requires e.compactions == db.compactions && e.uploads == db.uploads && e.inputs <= db.inputs
    requires forall id :: id in db.captures && id in e.captures ==> e.captures[id].sha256 == db.captures[id].sha256
    ensures Follows(db, e, {})
  {
  }

  lemma ReleaseFollows(db: DB, id: string)
    requires StatusesOk(db)
    ensures var e := MarkCaptureRetained(db, id);
      Follows(db, e, {}) && StatusesOk(e) && e.captures.Keys == db.captures.Keys
  {
    RowsAsideFollow(db, MarkCaptureRetained(db, id));
  }

  lemma ReleaseMoves(db: DB, id: string)
    requires DbOk(db)
    ensures Moves(db, MarkCaptureRetained(db, id), {})
  {
    ReleaseFollows(db, id);
    DbOkAfter(db, StateLaws.CaptureReleased(id));
  }

  lemma ParquetFollows(db: DB, k: Revision)
    requires StatusesOk(db) && Published(db, k)
    ensures var e := MarkParquetRetained(db, k); Follows(db, e, {}) && StatusesOk(e)
  {
  }

  lemma ParquetMoves(db: DB, k: Revision)
    requires DbOk(db) && Published(db, k)
    ensures Moves(db, MarkParquetRetained(db, k), {})
  {
    ParquetFollows(db, k);
    DbOkAfter(db, StateLaws.ParquetReleased(k));
  }

  lemma BackfillFollows(db: DB, d: string, now: int)
    requires StatusesOk(db)
    ensures Follows(db, EnsureDestinationBackfill(db, d, now), {}) && StatusesOk(EnsureDestinationBackfill(db, d, now))
  {
    var e := EnsureDestinationBackfill(db, d, now);
    forall u | u in e.uploads ensures (u in db.uploads && e.uploads[u] == db.uploads[u])
      || e.uploads[u] == QueuedUpload(false, now) {
    }
  }

  lemma BackfillMoves(db: DB, d: string, now: int)
    requires DbOk(db)
    ensures Moves(db, EnsureDestinationBackfill(db, d, now), {})
  {
    BackfillFollows(db, d, now);
    DbOkAfter(db, StateLaws.Backfilled(d, now));
  }

  lemma RetireMoves(db: DB, d: string, reason: string, now: int)
    requires DbOk(db)
    ensures Moves(db, RetireDestination(db, d, reason, now), db.uploads.Keys)
  {
    RetireFollows(db, d, reason, now);
    DbOkAfter(db, StateLaws.Retired(d, reason, now));
  }

  lemma RetireFollows(db: DB, d: string, reason: string, now: int)
    requires StatusesOk(db)
    ensures Follows(db, RetireDestination(db, d, reason, now), db.uploads.Keys)
    ensures StatusesOk(RetireDestination(db, d, reason, now))
  {
    var e := RetireDestination(db, d, reason, now);
    forall u | u in db.uploads ensures u in e.uploads && RowFollows(db.uploads[u], e.uploads[u]) {
      assert e.uploads[u] == RetireUploads(db.uploads, d, reason, now)[u];
    }
    forall k | Published(e, k) && !Published(db, k) ensures exists u :: Vouches(e, k, u) {
      assert Vouches(e, k, (k, d));
    }
  }

  // ---- fetching ----

  lemma CommitFilesKeeps(w: World, s: Sys, id: string, body: A.Bytes)
    requires Inv(w, s) && CanFetch(w, s, CommitFiles(id, body))
    ensures Inv(w, DoFetch(w, s, CommitFiles(id, body)))
  {
  }

  lemma RegisterKeeps(w: World, s: Sys, tick: Tick, id: string, c: Capture)
    requires Inv(w, s) && CanFetch(w, s, Register(tick, id, c))
    ensures Inv(w, DoFetch(w, s, Register(tick, id, c)))
  {
    if SaveCapture(s.db, tick, id, c).Some? {
      var e := SaveCapture(s.db, tick, id, c).value;
      CaptureMoves(s.db, tick, id, c);
      Transacted(w, s, e, {});
      RegisteredFiles(w, s.db, e, s.raw, DoFetch(w, s, Register(tick, id, c)).raw, id, c);
    }
  }

  lemma RegisteredFiles(w: World, db: DB, e: DB, raw: RawFiles, after: RawFiles, id: string, c: Capture)
    requires FilesOk(w, db, raw) && e.captures == db.captures[id := c] && c.rawPath.Live?
    requires after == raw.(registered := raw.registered + {id}) && id in raw.payloads
    requires id !in raw.damaged ==> w.digest(raw.payloads[id]) == c.sha256
    ensures FilesOk(w, e, after)
  {
    forall o | o in e.captures ensures Hashed(w, e, after, o) {
      assert o != id ==> Hashed(w, db, raw, o);
    }
  }

  lemma NoteTickKeeps(w: World, s: Sys, id: string, tick: Tick)
    requires Inv(w, s)
    ensures Inv(w, DoFetch(w, s, NoteTick(id, tick)))
  {
    TickMoves(s.db, id, tick);
    TransactedQuietly(w, s, RecordTick(s.db, id, tick));
  }

  // ---- compaction ----

  lemma StartJobKeeps(w: World, s: Sys, day: Day, inputs: seq<Input>)
    requires Inv(w, s) && CanCompact(w, s, StartJob(day, inputs))
    ensures Inv(w, DoCompact(w, s, StartJob(day, inputs)))
  {
    assert StateLaws.Gapless(s.db, day);
    StateLaws.NextRevisionNumber(s.db, day);
  }

  /** A new package under a revision no row mentions. */
  lemma CatalogedWorkers(w: World, db: DB, catalog: map<Revision, Package>, remote: map<Address, Object>,
                         workers: map<string, Worker>,
                         k: Revision, p: Package)
    requires StateLaws.ForeignKeys(db) && k !in db.compactions && WorkersOk(w, db, catalog, remote, workers)
    ensures WorkersOk(w, db, catalog[k := p], remote, workers)
  {
    forall d | d in workers ensures WorkerOk(w, db, catalog[k := p], remote, d, workers[d]) {
      var wk := workers[d];
      assert WorkerOk(w, db, catalog, remote, d, wk);
      if |wk.queue| > 0 { assert RowOk(db, d, wk.queue[0]); }
    }
  }

  lemma CatalogedRevisions(w: World, db: DB, catalog: map<Revision, Package>, local: map<Revision, LocalFiles>,
                           k: Revision, p: Package)
    requires StateLaws.ForeignKeys(db) && CatalogOk(w, db, catalog, local)
    requires k !in db.compactions && k.number == NextRevision(db, k.day) && w.good(k, p)
    ensures CatalogOk(w, db, catalog[k := p], local[k := Full(p)])
  {
    var more := catalog[k := p];
    forall j | j in more ensures RevisionOk(w, db, more, local[k := Full(p)], j) {
      if j != k { assert RevisionOk(w, db, catalog, local, j); }
    }
  }

  lemma CatalogedVerified(w: World, db: DB, catalog: map<Revision, Package>, remote: map<Address, Object>, k: Revision,
                          p: Package)
    requires StateLaws.ForeignKeys(db) && k !in db.compactions && VerifiedOk(w, db, catalog, remote)
    ensures VerifiedOk(w, db, catalog[k := p], remote)
  {
  }

  lemma CatalogedJobs(db: DB, catalog: map<Revision, Package>, jobs: map<Stream, Job>, stream: Stream, p: Package)
    requires stream in jobs && p.inputs == jobs[stream].inputs && p.ids == InputIds(p.inputs)
    requires forall o :: o in jobs ==> JobOk(db, catalog, o, jobs[o])
    ensures var more := jobs[stream := jobs[stream].(written := true)];
      forall o :: o in more ==> JobOk(db, catalog[jobs[stream].k := p], o, more[o])
  {
    var more := jobs[stream := jobs[stream].(written := true)];
    forall o | o in more ensures JobOk(db, catalog[jobs[stream].k := p], o, more[o]) {
      assert JobOk(db, catalog, o, jobs[o]) && JobOk(db, catalog, stream, jobs[stream]);
    }
  }

  /** What was read of captures that have rows. */
  lemma CatalogedReads(w: World, db: DB, catalog: map<Revision, Package>, raw: RawFiles, k: Revision, p: Package,
                       inputs: seq<Input>)
    requires ReadsOk(catalog, raw) && FilesOk(w, db, raw) && p.ids == InputIds(inputs)
    requires (forall i :: i in inputs ==> Held(db, i)) && ReadFrom(raw, p)
    ensures ReadsOk(catalog[k := p], raw)
  {
    forall id | id in p.read ensures Unchanged(p.read, raw, id) {
      var n :| 0 <= n < |p.ids| && p.ids[n] == id;
      assert inputs[n] in inputs && id in db.captures;
    }
  }

  lemma WriteRevisionKeeps(w: World, s: Sys, stream: Stream, p: Package)
    requires Inv(w, s) && CanCompact(w, s, WriteRevision(stream, p))
    ensures Inv(w, DoCompact(w, s, WriteRevision(stream, p)))
  {
    var k := s.janitor.jobs[stream].k;
    assert JobOk(s.db, s.catalog, stream, s.janitor.jobs[stream]);
    CatalogedWorkers(w, s.db, s.catalog, s.remote, s.workers, k, p);
    CatalogedRevisions(w, s.db, s.catalog, s.local, k, p);
    CatalogedVerified(w, s.db, s.catalog, s.remote, k, p);
    CatalogedJobs(s.db, s.catalog, s.janitor.jobs, stream, p);
    CatalogedReads(w, s.db, s.catalog, s.raw, k, p, s.janitor.jobs[stream].inputs);
  }

  /** A new revision with its inputs and queue. */
  ghost predicate AddsRevision(db: DB, e: DB, k: Revision, p: Package, allow: bool, now: int) {
    && k !in db.compactions && e.compactions == db.compactions[k := p.row(allow)]
    && e.captures == db.captures && e.uploads == db.uploads + Queue(k, p.queue, now)
    && (forall i :: i in e.inputs ==> i in db.inputs || (i.0 == k && i.1 in p.ids && HashRecorded(db, p, i.1)))
    && (p.row(allow).publishedAt.Some? ==> allow)
  }

  predicate HashRecorded(db: DB, p: Package, id: string) {
    id in db.captures && Input(id, db.captures[id].sha256) in p.inputs
  }

  lemma AddedRows(db: DB, e: DB, k: Revision, p: Package, allow: bool, now: int, u: UploadKey)
    requires AddsRevision(db, e, k, p, allow, now) && StateLaws.ForeignKeys(db)
    ensures u in db.uploads ==> u in e.uploads && e.uploads[u] == db.uploads[u]
    ensures u in e.uploads && u !in db.uploads ==> u.0 == k && e.uploads[u].status == Pending
  {
    if u in db.uploads { assert u.0 in db.compactions; }
  }

  lemma AddedCatalog(w: World, db: DB, e: DB, k: Revision, p: Package, allow: bool, now: int, catalog: map<Revision,
                     Package>,
                     local: map<Revision, LocalFiles>)
    requires WorldOk(w) && CatalogOk(w, db, catalog, local) && AddsRevision(db, e, k, p, allow, now)
    requires k in catalog && catalog[k] == p
    ensures CatalogOk(w, e, catalog, local)
  {
    assert RevisionOk(w, db, catalog, local, k) && Sound(p);
    AddedInputs(db, e, k, p, allow, now, catalog);
    forall j | j in catalog ensures RevisionOk(w, e, catalog, local, j) {
      AddedRevision(w, db, e, k, p, allow, now, catalog, local, j);
    }
  }

  lemma AddedInputs(db: DB, e: DB, k: Revision, p: Package, allow: bool, now: int, catalog: map<Revision, Package>)
    requires AddsRevision(db, e, k, p, allow, now) && k in catalog && catalog[k] == p
    requires forall i :: i in db.inputs ==> Recorded(db, catalog, i)
    ensures forall i :: i in e.inputs ==> Recorded(e, catalog, i)
  {
    forall i | i in e.inputs ensures Recorded(e, catalog, i) {
      if i in db.inputs { assert Recorded(db, catalog, i); }
    }
  }

  lemma AddedRevision(w: World, db: DB, e: DB, k: Revision, p: Package, allow: bool, now: int, catalog: map<Revision,
                      Package>,
                      local: map<Revision, LocalFiles>, j: Revision)
    requires RevisionOk(w, db, catalog, local, j) && RevisionOk(w, db, catalog, local, k)
      && AddsRevision(db, e, k, p, allow, now)
    ensures RevisionOk(w, e, catalog, local, j)
  {
    if j.day != k.day { SameKeysSameNumbers(db, e, j.day); }
  }

  lemma AddedGapless(db: DB, e: DB, k: Revision, p: Package, allow: bool, now: int)
    requires AllGapless(db) && AddsRevision(db, e, k, p, allow, now) && k.number == NextRevision(db, k.day)
    ensures AllGapless(e)
  {
    forall day ensures StateLaws.Gapless(e, day) {
      assert StateLaws.Gapless(db, day);
      if day == k.day { StateLaws.NumbersExtend(db, e, k); } else { SameKeysSameNumbers(db, e, day); }
    }
  }

  lemma AddedWorkers(w: World, db: DB, e: DB, k: Revision, p: Package, allow: bool, now: int, catalog: map<Revision,
                     Package>,
                     remote: map<Address, Object>, workers: map<string, Worker>)
    requires StateLaws.ForeignKeys(db) && AddsRevision(db, e, k, p, allow, now)
    requires WorkersOk(w, db, catalog, remote, workers)
    ensures WorkersOk(w, e, catalog, remote, workers)
  {
    forall d | d in workers ensures WorkerOk(w, e, catalog, remote, d, workers[d]) {
      assert WorkerOk(w, db, catalog, remote, d, workers[d]);
      forall u | u in workers[d].queue ensures RowOk(e, d, u) {
        assert RowOk(db, d, u);
        AddedRows(db, e, k, p, allow, now, u);
      }
    }
  }

  lemma AddedVerified(w: World, db: DB, e: DB, k: Revision, p: Package, allow: bool, now: int, catalog: map<Revision,
                      Package>,
                      remote: map<Address, Object>)
    requires StateLaws.ForeignKeys(db) && AddsRevision(db, e, k, p, allow, now) && VerifiedOk(w, db, catalog, remote)
    ensures VerifiedOk(w, e, catalog, remote) && (StatusesOk(db) ==> StatusesOk(e))
  {
    AddedAllRows(db, e, k, p, allow, now);
    if StatusesOk(db) { AddedStatuses(db, e); }
  }

  lemma AddedStatuses(db: DB, e: DB)
    requires StatusesOk(db) && KeptOrPending(db, e)
    ensures StatusesOk(e)
  {
    forall u | u in e.uploads ensures StatusOk(e.uploads[u]) {
      assert u in db.uploads ==> StatusOk(db.uploads[u]);
    }
  }

  predicate KeptOrPending(db: DB, e: DB) {
    forall u :: u in e.uploads ==> (u in db.uploads && e.uploads[u] == db.uploads[u]) || e.uploads[u].status == Pending
  }

  lemma AddedAllRows(db: DB, e: DB, k: Revision, p: Package, allow: bool, now: int)
    requires AddsRevision(db, e, k, p, allow, now) && StateLaws.ForeignKeys(db)
    ensures KeptOrPending(db, e)
  {
    forall u | u in e.uploads
      ensures (u in db.uploads && e.uploads[u] == db.uploads[u]) || e.uploads[u].status == Pending
    {
      AddedRows(db, e, k, p, allow, now, u);
    }
  }

  lemma AddedJobs(db: DB, e: DB, k: Revision, p: Package, allow: bool, now: int, catalog: map<Revision, Package>,
                  jobs: map<Stream, Job>)
    requires AddsRevision(db, e, k, p, allow, now)
    requires forall stream :: stream in jobs ==> JobOk(db, catalog, stream, jobs[stream]) && stream != k.day.stream
    ensures forall stream :: stream in jobs ==> JobOk(e, catalog, stream, jobs[stream])
  {
    forall stream | stream in jobs ensures JobOk(e, catalog, stream, jobs[stream]) {
      SameKeysSameNumbers(db, e, jobs[stream].k.day);
    }
  }

  lemma AddedPublications(s: Sys, e: DB, k: Revision, allow: bool, now: int)
    requires PublicationsOk(s.db, s.localOnly) && StateLaws.ForeignKeys(s.db) && k in s.catalog
    requires AddsRevision(s.db, e, k, s.catalog[k], allow, now)
    ensures PublicationsOk(e, Allowed(s, k, allow))
  {
    forall j | Published(e, j) && j !in Allowed(s, k, allow) ensures exists u :: Vouches(e, j, u) {
      assert Published(s.db, j);
      var u :| Vouches(s.db, j, u);
      AddedRows(s.db, e, k, s.catalog[k], allow, now, u);
      assert Vouches(e, j, u);
    }
  }

  /** Everything but the janitor, after a revision was added. */
  lemma Added(w: World, s: Sys, e: DB, k: Revision, allow: bool, now: int)
    requires WorldOk(w) && Inv(w, s) && k in s.catalog && k !in s.db.compactions
    requires AddsRevision(s.db, e, k, s.catalog[k], allow, now) && StateLaws.ForeignKeys(e) && StateLaws.GateExact(e)
    ensures DbOk(e) && CatalogOk(w, e, s.catalog, s.local) && VerifiedOk(w, e, s.catalog, s.remote)
    ensures WorkersOk(w, e, s.catalog, s.remote, s.workers) && FilesOk(w, e, s.raw)
    ensures PublicationsOk(e, Allowed(s, k, allow))
  {
    AddedPublications(s, e, k, allow, now);
    SameFiles(w, s.db, e, s.raw);
    var p := s.catalog[k];
    assert RevisionOk(w, s.db, s.catalog, s.local, k);
    AddedGapless(s.db, e, k, p, allow, now);
    AddedCatalog(w, s.db, e, k, p, allow, now, s.catalog, s.local);
    AddedWorkers(w, s.db, e, k, p, allow, now, s.catalog, s.remote, s.workers);
    AddedVerified(w, s.db, e, k, p, allow, now, s.catalog, s.remote);
  }

  lemma SaveAdds(w: World, db: DB, k: Revision, p: Package, allow: bool, now: int)
    requires StateLaws.ForeignKeys(db) && StateLaws.GateExact(db) && Sound(p)
    requires p.ids == InputIds(p.inputs) && forall i :: i in p.inputs ==> Held(db, i)
    requires SaveCompaction(db, k, p.row(allow), p.ids, p.queue, now).Some?
    ensures var e := SaveCompaction(db, k, p.row(allow), p.ids, p.queue, now).value;
      AddsRevision(db, e, k, p, allow, now) && StateLaws.ForeignKeys(e) && StateLaws.GateExact(e)
  {
    var t := StateLaws.CompactionSaved(k, p.row(allow), p.ids, p.queue, now);
    StateLaws.ForeignKeysKept(db, t);
    StateLaws.GateKept(db, t);
    forall id | id in p.ids ensures HashRecorded(db, p, id) {
      var n :| 0 <= n < |p.ids| && p.ids[n] == id;
      assert p.inputs[n] in p.inputs && p.inputs[n].id == id;
    }
  }

  lemma AdoptAdds(w: World, db: DB, k: Revision, p: Package, allow: bool, now: int)
    requires StateLaws.ForeignKeys(db) && StateLaws.GateExact(db) && Sound(p)
    requires AdoptCompaction(db, k, p.row(allow), p.inputs, p.excluded, p.queue, now).Some?
    ensures var e := AdoptCompaction(db, k, p.row(allow), p.inputs, p.excluded, p.queue, now).value;
      AddsRevision(db, e, k, p, allow, now) && StateLaws.ForeignKeys(e) && StateLaws.GateExact(e)
  {
    var t := StateLaws.CompactionAdopted(k, p.row(allow), p.inputs, p.excluded, p.queue, now);
    LinkedWithin(db, p.inputs);
    forall id | id in Linked(db, p.inputs) ensures HashRecorded(db, p, id) {
      var i :| i in p.inputs && i.id == id;
      assert Adoptable(db, i, p.excluded);
    }
    StateLaws.ForeignKeysKept(db, t);
    StateLaws.GateKept(db, t);
  }

  lemma {:induction false} LinkedWithin(db: DB, inputs: seq<Input>)
    ensures forall id :: id in Linked(db, inputs) ==> id in db.captures && exists i :: i in inputs && i.id == id
  {
    if |inputs| > 0 {
      LinkedWithin(db, inputs[..|inputs|-1]);
    }
  }

  lemma SaveRevisionKeeps(w: World, s: Sys, stream: Stream, allow: bool, now: int)
    requires WorldOk(w) && Inv(w, s) && CanCompact(w, s, SaveRevision(stream, allow, now))
    ensures Inv(w, DoCompact(w, s, SaveRevision(stream, allow, now)))
  {
    var job := s.janitor.jobs[stream];
    var k, p := job.k, s.catalog[job.k];
    assert JobOk(s.db, s.catalog, stream, job) && RevisionOk(w, s.db, s.catalog, s.local, k);
    var others := s.janitor.jobs - {stream};
    forall o | o in others ensures JobOk(s.db, s.catalog, o, others[o]) && o != k.day.stream {
      assert JobOk(s.db, s.catalog, o, s.janitor.jobs[o]);
    }
    if SaveCompaction(s.db, k, p.row(allow), p.ids, p.queue, now).Some? {
      var e := SaveCompaction(s.db, k, p.row(allow), p.ids, p.queue, now).value;
      SaveAdds(w, s.db, k, p, allow, now);
      Added(w, s, e, k, allow, now);
      AddedJobs(s.db, e, k, p, allow, now, s.catalog, others);
    }
  }

  lemma AdoptKeeps(w: World, s: Sys, k: Revision, allow: bool, now: int)
    requires WorldOk(w) && Inv(w, s) && CanOperate(w, s, Adopt(k, allow, now))
    ensures Inv(w, DoOperate(w, s, Adopt(k, allow, now)))
  {
    var p := s.catalog[k];
    assert RevisionOk(w, s.db, s.catalog, s.local, k);
    if AdoptCompaction(s.db, k, p.row(allow), p.inputs, p.excluded, p.queue, now).Some? {
      AdoptAdds(w, s.db, k, p, allow, now);
      Added(w, s, AdoptCompaction(s.db, k, p.row(allow), p.inputs, p.excluded, p.queue, now).value, k, allow, now);
    }
  }

  lemma DropJobKeeps(w: World, s: Sys, stream: Stream)
    requires Inv(w, s) && CanCompact(w, s, DropJob(stream))
    ensures Inv(w, DoCompact(w, s, DropJob(stream)))
  {
  }

  // ---- uploading ----

  lemma ListUploadsKeeps(w: World, s: Sys, d: string, queue: seq<UploadKey>, now: int)
    requires Inv(w, s) && CanUpload(w, s, d, ListUploads(queue, now))
    ensures Inv(w, DoUpload(w, s, d, ListUploads(queue, now)))
  {
    assert WorkerOk(w, s.db, s.catalog, s.remote, d, Worker(queue, Between));
  }

  lemma OneWorker(w: World, db: DB, catalog: map<Revision, Package>, remote: map<Address, Object>, workers: map<string,
                  Worker>,
                  d: string, wk: Worker)
    requires WorkersOk(w, db, catalog, remote, workers - {d}) && WorkerOk(w, db, catalog, remote, d, wk)
    ensures WorkersOk(w, db, catalog, remote, workers[d := wk])
  {
    var all := workers[d := wk];
    forall o | o in all ensures WorkerOk(w, db, catalog, remote, o, all[o]) {
      if o != d { assert o in workers - {d}; }
    }
  }

  lemma BeginUploadKeeps(w: World, s: Sys, d: string, next: int)
    requires Inv(w, s) && CanUpload(w, s, d, BeginUpload(next))
    ensures Inv(w, DoUpload(w, s, d, BeginUpload(next)))
  {
    var wk := s.workers[d];
    var u := wk.queue[0];
    assert WorkerOk(w, s.db, s.catalog, s.remote, d, wk) && RowOk(s.db, d, u);
    assert u.0 in s.catalog && RevisionOk(w, s.db, s.catalog, s.local, u.0);
    var m := s.local[u.0].manifest.value;
    var dir := w.dirOf(d, m).value;
    AttemptMoves(s.db, d, u, dir, next);
    SameFiles(w, s.db, MarkUploadAttempt(s.db, u, dir, next), s.raw);
    var t := s.(db := MarkUploadAttempt(s.db, u, dir, next));
    TransactedQuietly(w, s, t.db);
    StageKeeps(w, t, d, Attempted(m, dir));
  }

  lemma StageKeeps(w: World, s: Sys, d: string, stage: Stage)
    requires Inv(w, s) && d in s.workers && StageOk(w, s.catalog, s.remote, d, s.workers[d].(stage := stage))
    ensures Inv(w, WithStage(s, d, stage))
  {
    assert WorkerOk(w, s.db, s.catalog, s.remote, d, s.workers[d]);
    OneWorker(w, s.db, s.catalog, s.remote, s.workers, d, s.workers[d].(stage := stage));
  }

  lemma ConfirmArtifactKeeps(w: World, s: Sys, d: string)
    requires Inv(w, s) && CanUpload(w, s, d, ConfirmArtifact)
    ensures Inv(w, DoUpload(w, s, d, ConfirmArtifact))
  {
    var stage := s.workers[d].stage;
    assert WorkerOk(w, s.db, s.catalog, s.remote, d, s.workers[d]);
    assert stage.m.files[..stage.done + 1] == stage.m.files[..stage.done] + [stage.m.files[stage.done]];
    StageKeeps(w, s, d, stage.(done := stage.done + 1));
  }

  lemma ConfirmManifestKeeps(w: World, s: Sys, d: string)
    requires Inv(w, s) && CanUpload(w, s, d, ConfirmManifest)
    ensures Inv(w, DoUpload(w, s, d, ConfirmManifest))
  {
    var stage := s.workers[d].stage;
    assert WorkerOk(w, s.db, s.catalog, s.remote, d, s.workers[d]);
    assert stage.m.files[..stage.done] == stage.m.files;
    StageKeeps(w, s, d, Copied(stage.m, stage.dir));
  }

  predicate Grows(remote: map<Address, Object>, more: map<Address, Object>) {
    forall a: Address :: a in remote ==> a in more && more[a] == remote[a]
  }

  lemma GrowsThere(w: World, remote: map<Address, Object>, more: map<Address, Object>, d: string, dir: string,
                   files: seq<C.FileEntry>)
    requires Grows(remote, more) && ArtifactsThere(w, remote, d, dir, files)
    ensures ArtifactsThere(w, more, d, dir, files)
  {
  }

  lemma RevisionGrows(w: World, remote: map<Address, Object>, more: map<Address, Object>, d: string, dir: string,
                      m: C.Manifest)
    requires Grows(remote, more) && RevisionThere(w, remote, d, dir, m)
    ensures RevisionThere(w, more, d, dir, m)
  {
    GrowsThere(w, remote, more, d, dir, m.files);
  }

  lemma WorkerGrows(w: World, db: DB, catalog: map<Revision, Package>, remote: map<Address, Object>, more: map<Address,
                    Object>,
                    d: string, wk: Worker)
    requires Grows(remote, more) && WorkerOk(w, db, catalog, remote, d, wk)
    ensures WorkerOk(w, db, catalog, more, d, wk)
  {
    if wk.stage.Copying? { GrowsThere(w, remote, more, d, wk.stage.dir, wk.stage.m.files[..wk.stage.done]); }
    if wk.stage.Copied? { RevisionGrows(w, remote, more, d, wk.stage.dir, wk.stage.m); }
  }

  /** A new remote object disturbs nothing; a new manifest needs its artifacts there. */
  lemma PutKeeps(w: World, s: Sys, at: Address, o: Object)
    requires Inv(w, s) && at !in s.remote
    requires at.2 == MANIFEST && o.ManifestObject? ==> ArtifactsThere(w, s.remote, at.0, at.1, o.m.files)
    ensures Inv(w, s.(remote := s.remote[at := o]))
  {
    var more := s.remote[at := o];
    assert Grows(s.remote, more);
    forall a: Address | a in more && a.2 == MANIFEST && more[a].ManifestObject?
      ensures ArtifactsThere(w, more, a.0, a.1, more[a].m.files)
    {
      GrowsThere(w, s.remote, more, a.0, a.1, more[a].m.files);
    }
    forall u | u in s.db.uploads && s.db.uploads[u].status == Verified
      ensures u.0 in s.catalog && RevisionThere(w, more, u.1, s.db.uploads[u].remotePath, s.catalog[u.0].manifest)
    {
      RevisionGrows(w, s.remote, more, u.1, s.db.uploads[u].remotePath, s.catalog[u.0].manifest);
    }
    forall d | d in s.workers ensures WorkerOk(w, s.db, s.catalog, more, d, s.workers[d]) {
      WorkerGrows(w, s.db, s.catalog, s.remote, more, d, s.workers[d]);
    }
  }

  lemma PutManifestKeeps(w: World, s: Sys, d: string)
    requires Inv(w, s) && CanUpload(w, s, d, PutManifest)
    ensures Inv(w, DoUpload(w, s, d, PutManifest))
  {
    var stage, k := s.workers[d].stage, s.workers[d].queue[0].0;
    assert WorkerOk(w, s.db, s.catalog, s.remote, d, s.workers[d]) && RevisionOk(w, s.db, s.catalog, s.local, k);
    assert stage.m.files[..stage.done] == stage.m.files;
    PutKeeps(w, s, (d, stage.dir, MANIFEST), ManifestObject(s.local[k].manifest.value));
  }

  lemma PoppedOk(w: World, db: DB, catalog: map<Revision, Package>, remote: map<Address, Object>, d: string, wk: Worker)
    requires |wk.queue| > 0 && Distinct(wk.queue) && forall u :: u in wk.queue[1..] ==> RowOk(db, d, u)
    ensures WorkerOk(w, db, catalog, remote, d, Worker(wk.queue[1..], Between))
  {
    assert forall i :: 0 <= i < |wk.queue[1..]| ==> wk.queue[1..][i] == wk.queue[i + 1];
  }

  /** The worker's other rows, and all rows of other workers, are not the one in hand. */
  lemma OnlyInHand(w: World, db: DB, catalog: map<Revision, Package>, remote: map<Address, Object>, workers: map<string,
                   Worker>, d: string)
    requires WorkersOk(w, db, catalog, remote, workers) && d in workers && |workers[d].queue| > 0
    ensures workers[d].queue[0] !in workers[d].queue[1..]
    ensures forall o :: o in workers && o != d ==> workers[d].queue[0] !in workers[o].queue
  {
    var q := workers[d].queue;
    assert WorkerOk(w, db, catalog, remote, d, workers[d]) && RowOk(db, d, q[0]);
    forall o | o in workers && o != d ensures q[0] !in workers[o].queue {
      assert WorkerOk(w, db, catalog, remote, o, workers[o]);
      assert forall u :: u in workers[o].queue ==> RowOk(db, o, u);
    }
  }

  /** The tables moved by the row in hand only, and the worker goes on to its next row. */
  lemma PopKeeps(w: World, s: Sys, d: string, e: DB)
    requires Inv(w, s) && Working(s, d) && Moves(s.db, e, {s.workers[d].queue[0]}) && e.captures == s.db.captures
    requires var u := s.workers[d].queue[0];
      u in e.uploads && e.uploads[u].status == Verified ==>
        u.0 in s.catalog && RevisionThere(w, s.remote, u.1, e.uploads[u].remotePath, s.catalog[u.0].manifest)
    ensures Inv(w, s.(db := e, workers := Popped(s, d)))
  {
    Transacted(w, s, e, {s.workers[d].queue[0]});
    PopWorkers(w, s, d, e);
    SameFiles(w, s.db, e, s.raw);
  }

  lemma PopWorkers(w: World, s: Sys, d: string, e: DB)
    requires WorkersOk(w, s.db, s.catalog, s.remote, s.workers) && Working(s, d)
      && Follows(s.db, e, {s.workers[d].queue[0]})
    ensures WorkersOk(w, e, s.catalog, s.remote, Popped(s, d))
  {
    var u := s.workers[d].queue[0];
    forall o | o in s.workers && u !in s.workers[o].queue ensures WorkerOk(w, e, s.catalog, s.remote, o, s.workers[o]) {
      assert forall v :: v in s.workers[o].queue ==> v !in {u};
      FollowsWorker(w, s.db, e, {u}, s.catalog, s.remote, o, s.workers[o]);
    }
    PoppedWorkers(w, s.db, e, s.catalog, s.remote, s.workers, d);
  }

  lemma PoppedWorkers(w: World, db: DB, e: DB, catalog: map<Revision, Package>, remote: map<Address, Object>,
                      workers: map<string, Worker>,
                      d: string)
    requires WorkersOk(w, db, catalog, remote, workers) && d in workers && |workers[d].queue| > 0
    requires Follows(db, e, {workers[d].queue[0]})
    requires forall o :: o in workers && workers[d].queue[0] !in workers[o].queue ==>
      WorkerOk(w, e, catalog, remote, o, workers[o])
    ensures WorkersOk(w, e, catalog, remote, workers[d := Worker(workers[d].queue[1..], Between)])
  {
    var wk := workers[d];
    OnlyInHand(w, db, catalog, remote, workers, d);
    assert WorkerOk(w, db, catalog, remote, d, wk);
    RestOk(db, e, d, wk.queue);
    PoppedOk(w, e, catalog, remote, d, wk);
    OneWorker(w, e, catalog, remote, workers, d, Worker(wk.queue[1..], Between));
  }

  lemma RestOk(db: DB, e: DB, d: string, queue: seq<UploadKey>)
    requires |queue| > 0 && Follows(db, e, {queue[0]}) && queue[0] !in queue[1..] && forall u :: u in queue ==>
      RowOk(db, d, u)
    ensures forall u :: u in queue[1..] ==> RowOk(e, d, u)
  {
    forall v | v in queue[1..] ensures RowOk(e, d, v) {
      assert v in queue && RowOk(db, d, v);
    }
  }

  lemma VerifiedRow(db: DB, u: UploadKey, dir: string, now: int)
    requires u in db.uploads
    ensures MarkUploadVerified(db, u, dir, now).Some?
    ensures var e := MarkUploadVerified(db, u, dir, now).value;
      u in e.uploads && e.uploads[u].status == Verified && e.uploads[u].remotePath == dir && e.captures == db.captures
  {
  }

  lemma FinishUploadKeeps(w: World, s: Sys, d: string, now: int)
    requires Inv(w, s) && CanUpload(w, s, d, FinishUpload(now))
    ensures Inv(w, DoUpload(w, s, d, FinishUpload(now)))
  {
    var u, dir := s.workers[d].queue[0], s.workers[d].stage.dir;
    assert WorkerOk(w, s.db, s.catalog, s.remote, d, s.workers[d]) && RowOk(s.db, d, u);
    var e := GetOr(MarkUploadVerified(s.db, u, dir, now), s.db);
    VerifiedRow(s.db, u, dir, now);
    VerifyMoves(s.db, d, u, dir, now);
    PopKeeps(w, s, d, e);
  }

  lemma FailUploadKeeps(w: World, s: Sys, d: string, status: Status, detail: string, next: int)
    requires Inv(w, s) && CanUpload(w, s, d, FailUpload(status, detail, next))
    ensures Inv(w, DoUpload(w, s, d, FailUpload(status, detail, next)))
  {
    var u := s.workers[d].queue[0];
    assert WorkerOk(w, s.db, s.catalog, s.remote, d, s.workers[d]) && RowOk(s.db, d, u);
    FailMoves(s.db, d, u, status, detail, next);
    PopKeeps(w, s, d, MarkUploadFailed(s.db, u, status, detail, next));
  }

  // ---- retention ----

  lemma StartCleanupKeeps(w: World, s: Sys, captures: seq<string>, cutoff: int)
    requires Inv(w, s) && CanClean(w, s, StartCleanup(captures, cutoff))
    ensures Inv(w, DoClean(w, s, StartCleanup(captures, cutoff)))
  {
    forall id | id in captures ensures StateLaws.Released(s.db, id) {
      StateLaws.CandidateIsReleased(s.db, id, cutoff);
    }
  }

  lemma RawPassPopped(db: DB, catalog: map<Revision, Package>, raw: RawFiles,
                      captures: seq<string>, step: nat)
    requires |captures| > 0 && JanitorOk(db, catalog, raw, RawPass(captures, step))
    ensures JanitorOk(db, catalog, raw, RawPass(captures[1..], 0))
  {
    assert forall id :: id in captures[1..] ==> id in captures;
  }

  lemma JanitorMoves(w: World, s: Sys, j: Janitor)
    requires Inv(w, s) && JanitorOk(s.db, s.catalog, s.raw, j)
    ensures Inv(w, s.(janitor := j))
  {
  }

  lemma RetainedFiles(w: World, db: DB, raw: RawFiles, id: string)
    requires FilesOk(w, db, raw) && id !in raw.payloads && id !in raw.sidecars
    ensures FilesOk(w, MarkCaptureRetained(db, id), raw)
  {
    var e := MarkCaptureRetained(db, id);
    forall o | o in e.captures ensures Hashed(w, e, raw, o) {
      assert Hashed(w, db, raw, o);
    }
  }

  lemma MarkRawKeeps(w: World, s: Sys)
    requires Inv(w, s) && CanClean(w, s, MarkRaw)
    ensures Inv(w, DoClean(w, s, MarkRaw))
  {
    var id := s.janitor.captures[0];
    var e := MarkCaptureRetained(s.db, id);
    ReleaseMoves(s.db, id);
    RetainedFiles(w, s.db, s.raw, id);
    TransactedQuietly(w, s, e);
    RawPassPopped(e, s.catalog, s.raw, s.janitor.captures, s.janitor.step);
    JanitorMoves(w, s.(db := e), RawPass(s.janitor.captures[1..], 0));
  }

  /** A file of the first capture of the raw pass goes. */
  lemma FewerFiles(w: World, db: DB, catalog: map<Revision, Package>, raw: RawFiles, fewer: RawFiles)
    requires FilesOk(w, db, raw) && ReadsOk(catalog, raw)
    requires fewer == raw.(payloads := fewer.payloads, sidecars := fewer.sidecars) && fewer.sidecars <= raw.sidecars
    requires forall id :: id in fewer.payloads ==> id in raw.payloads && fewer.payloads[id] == raw.payloads[id]
    ensures FilesOk(w, db, fewer) && ReadsOk(catalog, fewer)
  {
    forall id | id in db.captures ensures Hashed(w, db, fewer, id) {
      assert Hashed(w, db, raw, id);
    }
    forall k, id | k in catalog && id in catalog[k].read ensures Unchanged(catalog[k].read, fewer, id) {
      assert Unchanged(catalog[k].read, raw, id);
    }
  }

  lemma RemoveRawKeeps(w: World, s: Sys, a: CleanStep)
    requires Inv(w, s) && CanClean(w, s, a) && (a.RemovePayload? || a.RemoveSidecar?)
    ensures Inv(w, DoClean(w, s, a))
  {
    FewerFiles(w, s.db, s.catalog, s.raw, DoClean(w, s, a).raw);
  }

  /** Losing local files of a published revision. */
  lemma RemovalKeeps(w: World, db: DB, catalog: map<Revision, Package>, local: map<Revision, LocalFiles>, k: Revision,
                     l: LocalFiles)
    requires CatalogOk(w, db, catalog, local) && Published(db, k) && k in local
    requires (l.manifest.Some? ==> l.manifest == local[k].manifest) && (l.data.Some? ==> l.data == local[k].data)
    ensures CatalogOk(w, db, catalog, local[k := l])
  {
    forall j | j in catalog ensures RevisionOk(w, db, catalog, local[k := l], j) {
      assert RevisionOk(w, db, catalog, local, j);
    }
  }

  lemma RemoveFileKeeps(w: World, s: Sys, a: CleanStep)
    requires Inv(w, s) && CanClean(w, s, a) && (a.RemoveData? || a.RemoveManifest?)
    ensures Inv(w, DoClean(w, s, a))
  {
    var k := s.janitor.revisions[0];
    if k in s.local {
      RemovalKeeps(w, s.db, s.catalog, s.local, k, if a.RemoveData? then s.local[k].(data := None)
        else s.local[k].(manifest := None));
    }
  }

  lemma MarkParquetKeeps(w: World, s: Sys)
    requires Inv(w, s) && CanClean(w, s, MarkParquet)
    ensures Inv(w, DoClean(w, s, MarkParquet))
  {
    var k := s.janitor.revisions[0];
    var e := MarkParquetRetained(s.db, k);
    ParquetMoves(s.db, k);
    SameFiles(w, s.db, e, s.raw);
    TransactedQuietly(w, s, e);
    PublishedRest(e, s.catalog, s.raw, s.janitor.revisions, s.janitor.step);
    JanitorMoves(w, s.(db := e), ParquetPass(s.janitor.revisions[1..], 0));
  }

  lemma PublishedRest(db: DB, catalog: map<Revision, Package>, raw: RawFiles, revisions: seq<Revision>, step: nat)
    requires |revisions| > 0 && JanitorOk(db, catalog, raw, ParquetPass(revisions, step))
    ensures JanitorOk(db, catalog, raw, ParquetPass(revisions[1..], 0))
  {
    assert forall j :: j in revisions[1..] ==> j in revisions;
  }

  lemma SummaryFollows(db: DB, day: Day, start: int, end: int, now: int)
    requires DbOk(db) && SummarizeDay(db, day, start, end, now).Done?
    ensures var e := SummarizeDay(db, day, start, end, now).db;
      && DbOk(e) && Follows(db, e, {}) && e.captures.Keys <= db.captures.Keys
      && (forall id :: id in e.captures ==> e.captures[id] == db.captures[id])
      && (forall id :: id in db.captures && id !in e.captures ==> db.captures[id].rawPath.Retained?)
  {
    DbOkAfter(db, StateLaws.DaySummarised(day, start, end, now));
    var e := SummarizeDay(db, day, start, end, now).db;
    RowsAsideFollow(db, e);
    forall id | id in db.captures && id !in e.captures ensures db.captures[id].rawPath.Retained? {
      assert id in DayCaptures(db, day) && id !in LiveCaptures(db, day);
    }
  }

  /** Everything but the files, after a day was summarised. */
  lemma Summarised(w: World, s: Sys, e: DB)
    requires Inv(w, s) && DbOk(e) && Follows(s.db, e, {})
    ensures CatalogOk(w, e, s.catalog, s.local) && VerifiedOk(w, e, s.catalog, s.remote)
    ensures WorkersOk(w, e, s.catalog, s.remote, s.workers) && PublicationsOk(e, s.localOnly)
  {
    FollowsPublications(s.db, e, {}, s.localOnly);
    FollowsCatalog(w, s.db, e, {}, s.catalog, s.local);
    FollowsVerified(w, s.db, e, {}, s.catalog, s.remote);
    forall d | d in s.workers ensures WorkerOk(w, e, s.catalog, s.remote, d, s.workers[d]) {
      FollowsWorker(w, s.db, e, {}, s.catalog, s.remote, d, s.workers[d]);
    }
  }

  lemma SummaryFiles(w: World, s: Sys, e: DB)
    requires FilesOk(w, s.db, s.raw) && e.captures.Keys <= s.db.captures.Keys
    requires forall id :: id in e.captures ==> e.captures[id] == s.db.captures[id]
    requires forall id :: id in s.db.captures && id !in e.captures ==> s.db.captures[id].rawPath.Retained?
    ensures FilesOk(w, e, s.raw)
  {
  }

  lemma SummarisedKeeps(w: World, s: Sys, day: Day, start: int, end: int, now: int, days: seq<Day>)
    requires Inv(w, s) && SummarizeDay(s.db, day, start, end, now).Done?
    ensures Inv(w, s.(db := SummarizeDay(s.db, day, start, end, now).db, janitor := SummaryPass(days)))
  {
    var e := SummarizeDay(s.db, day, start, end, now).db;
    SummaryFollows(s.db, day, start, end, now);
    Summarised(w, s, e);
    SummaryFiles(w, s, e);
  }

  lemma SummariseKeeps(w: World, s: Sys, start: int, end: int, now: int)
    requires Inv(w, s) && CanClean(w, s, SummariseNext(start, end, now))
    ensures Inv(w, DoClean(w, s, SummariseNext(start, end, now)))
  {
    var day := s.janitor.days[0];
    var r := SummarizeDay(s.db, day, start, end, now);
    if r.Done? {
      SummarisedKeeps(w, s, day, start, end, now, s.janitor.days[1..]);
    } else if r.Failed? {
      JanitorMoves(w, s, Idle);
    } else {
      JanitorMoves(w, s, SummaryPass(s.janitor.days[1..]));
    }
  }

  // ---- the outside, and exclusive commands ----

  lemma DamageKeeps(w: World, s: Sys, id: string, left: Option<A.Bytes>)
    requires Inv(w, s) && CanOperate(w, s, Damage(id, left))
    ensures Inv(w, DoOperate(w, s, Damage(id, left)))
  {
    DamagedFiles(w, s.db, s.catalog, s.raw, DoOperate(w, s, Damage(id, left)).raw, id);
  }

  lemma DamagedFiles(w: World, db: DB, catalog: map<Revision, Package>, raw: RawFiles, after: RawFiles, id: string)
    requires FilesOk(w, db, raw) && ReadsOk(catalog, raw) && id in raw.payloads
    requires after == raw.(damaged := raw.damaged + {id}, payloads := after.payloads)
    requires after.payloads.Keys <= raw.payloads.Keys
    requires forall o :: o in after.payloads && o != id ==> after.payloads[o] == raw.payloads[o]
    ensures FilesOk(w, db, after) && ReadsOk(catalog, after)
  {
    forall o | o in db.captures ensures Hashed(w, db, after, o) {
      assert Hashed(w, db, raw, o);
    }
    forall k, o | k in catalog && o in catalog[k].read ensures Unchanged(catalog[k].read, after, o) {
      assert Unchanged(catalog[k].read, raw, o);
    }
  }

  lemma BackfillKeeps(w: World, s: Sys, d: string, now: int)
    requires Inv(w, s) && CanOperate(w, s, Backfill(d, now))
    ensures Inv(w, DoOperate(w, s, Backfill(d, now)))
  {
    BackfillMoves(s.db, d, now);
    SameFiles(w, s.db, EnsureDestinationBackfill(s.db, d, now), s.raw);
    TransactedQuietly(w, s, EnsureDestinationBackfill(s.db, d, now));
  }

  lemma RetireKeeps(w: World, s: Sys, d: string, reason: string, now: int)
    requires Inv(w, s) && CanOperate(w, s, Retire(d, reason, now))
    ensures Inv(w, DoOperate(w, s, Retire(d, reason, now)))
  {
    var e := RetireDestination(s.db, d, reason, now);
    RetireMoves(s.db, d, reason, now);
    forall u | u in e.uploads && e.uploads[u].status == Verified
      ensures u.0 in s.catalog && RevisionThere(w, s.remote, u.1, e.uploads[u].remotePath, s.catalog[u.0].manifest)
    {
      assert e.uploads[u] == s.db.uploads[u];
    }
    SameFiles(w, s.db, e, s.raw);
    Transacted(w, s, e, s.db.uploads.Keys);
  }
}
