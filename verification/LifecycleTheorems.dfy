/** The archive's promises over whole runs: crashes, retries, retention and interleaved destinations included. */
module LifecycleTheorems {
  import opened Prelude
  import opened Tables
  import opened Lifecycle
  import opened LifecycleSafety
  import A = Artifact
  import C = Compact
  import D = Destinations
  import Reconcile
  import opened Flatten
  import StateLaws

  // ---- every step keeps the invariant ----

  lemma FetchKeeps(w: World, s: Sys, a: FetchStep)
    requires Inv(w, s) && CanFetch(w, s, a)
    ensures Inv(w, DoFetch(w, s, a))
  {
    match a {
      case CommitFiles(id, body) => CommitFilesKeeps(w, s, id, body);
      case Register(tick, id, c) => RegisterKeeps(w, s, tick, id, c);
      case NoteTick(id, tick) => NoteTickKeeps(w, s, id, tick);
    }
  }

  lemma CompactKeeps(w: World, s: Sys, a: CompactStep)
    requires WorldOk(w) && Inv(w, s) && CanCompact(w, s, a)
    ensures Inv(w, DoCompact(w, s, a))
  {
    match a {
      case StartJob(day, inputs) => StartJobKeeps(w, s, day, inputs);
      case WriteRevision(stream, p) => WriteRevisionKeeps(w, s, stream, p);
      case SaveRevision(stream, allow, now) => SaveRevisionKeeps(w, s, stream, allow, now);
      case DropJob(stream) => DropJobKeeps(w, s, stream);
      case StartCompacting =>
      case EndCompacting =>
    }
  }

  lemma CheckLocalKeeps(w: World, s: Sys, d: string)
    requires Inv(w, s) && CanUpload(w, s, d, CheckLocal)
    ensures Inv(w, DoUpload(w, s, d, CheckLocal))
  {
    var stage := s.workers[d].stage;
    assert WorkerOk(w, s.db, s.catalog, s.remote, d, s.workers[d]);
    StageKeeps(w, s, d, Copying(stage.m, stage.dir, 0));
  }

  lemma PutArtifactKeeps(w: World, s: Sys, d: string)
    requires Inv(w, s) && CanUpload(w, s, d, PutArtifact)
    ensures Inv(w, DoUpload(w, s, d, PutArtifact))
  {
    var stage := s.workers[d].stage;
    PutKeeps(w, s, (d, stage.dir, stage.m.files[stage.done].relativePath),
      DataObject(s.local[s.workers[d].queue[0].0].data.value));
  }

  lemma EndUploadsKeeps(w: World, s: Sys, d: string)
    requires Inv(w, s) && CanUpload(w, s, d, EndUploads)
    ensures Inv(w, DoUpload(w, s, d, EndUploads))
  {
  }

  lemma UploadKeeps(w: World, s: Sys, d: string, a: UploadStep)
    requires Inv(w, s) && CanUpload(w, s, d, a)
    ensures Inv(w, DoUpload(w, s, d, a))
  {
    match a {
      case ListUploads(queue, now) => ListUploadsKeeps(w, s, d, queue, now);
      case BeginUpload(next) => BeginUploadKeeps(w, s, d, next);
      case CheckLocal => CheckLocalKeeps(w, s, d);
      case PutArtifact => PutArtifactKeeps(w, s, d);
      case ConfirmArtifact => ConfirmArtifactKeeps(w, s, d);
      case PutManifest => PutManifestKeeps(w, s, d);
      case ConfirmManifest => ConfirmManifestKeeps(w, s, d);
      case FinishUpload(now) => FinishUploadKeeps(w, s, d, now);
      case FailUpload(status, detail, next) => FailUploadKeeps(w, s, d, status, detail, next);
      case EndUploads => EndUploadsKeeps(w, s, d);
    }
  }

  lemma PassKeeps(w: World, s: Sys, a: CleanStep)
    requires Inv(w, s) && CanClean(w, s, a)
    requires a.StartParquet? || a.StartSummaries? || a.EndCleanup?
    ensures Inv(w, DoClean(w, s, a))
  {
  }

  lemma CleanKeeps(w: World, s: Sys, a: CleanStep)
    requires Inv(w, s) && CanClean(w, s, a)
    ensures Inv(w, DoClean(w, s, a))
  {
    match a {
      case StartCleanup(captures, cutoff) => StartCleanupKeeps(w, s, captures, cutoff);
      case RemovePayload => RemoveRawKeeps(w, s, a);
      case RemoveSidecar => RemoveRawKeeps(w, s, a);
      case MarkRaw => MarkRawKeeps(w, s);
      case RemoveData => RemoveFileKeeps(w, s, a);
      case RemoveManifest => RemoveFileKeeps(w, s, a);
      case MarkParquet => MarkParquetKeeps(w, s);
      case SummariseNext(start, end, now) => SummariseKeeps(w, s, start, end, now);
      case _ => PassKeeps(w, s, a);
    }
  }

  lemma OperateKeeps(w: World, s: Sys, a: OperatorStep)
    requires WorldOk(w) && Inv(w, s) && CanOperate(w, s, a)
    ensures Inv(w, DoOperate(w, s, a))
  {
    match a {
      case Adopt(k, allow, now) => AdoptKeeps(w, s, k, allow, now);
      case Backfill(d, now) => BackfillKeeps(w, s, d, now);
      case Retire(d, reason, now) => RetireKeeps(w, s, d, reason, now);
      case Damage(id, left) => DamageKeeps(w, s, id, left);
      case Crash =>
    }
  }

  lemma StepKeeps(w: World, s: Sys, a: Action)
    requires WorldOk(w) && Inv(w, s) && Enabled(w, s, a)
    ensures Inv(w, Next(w, s, a))
  {
    match a {
      case Fetch(f) => FetchKeeps(w, s, f);
      case Compact(c) => CompactKeeps(w, s, c);
      case Upload(d, u) => UploadKeeps(w, s, d, u);
      case Clean(r) => CleanKeeps(w, s, r);
      case Operate(o) => OperateKeeps(w, s, o);
    }
  }

  lemma StartOk(w: World)
    ensures Inv(w, START)
  {
    forall day ensures StateLaws.Gapless(START.db, day) {
      assert RevisionNumbers(START.db, day) == {};
    }
  }

  /** The invariant holds in every reachable state. */
  lemma {:induction false} RunKeeps(w: World, actions: seq<Action>)
    requires WorldOk(w)
    ensures Inv(w, Run(w, actions))
  {
    if |actions| == 0 {
      StartOk(w);
    } else {
      RunKeeps(w, actions[..|actions|-1]);
      var s, a := Run(w, actions[..|actions|-1]), actions[|actions|-1];
      if Enabled(w, s, a) { StepKeeps(w, s, a); }
    }
  }

  // ---- retention ----

  /** A verified upload whose remote holds the revision. */
  predicate Holds(w: World, s: Sys, k: Revision, u: UploadKey) {
    && u in s.db.uploads && u.0 == k && s.db.uploads[u].status == Verified && k in s.catalog
    && RevisionThere(w, s.remote, u.1, s.db.uploads[u].remotePath, s.catalog[k].manifest)
  }

  /** Every required upload of the revision was retired by the operator, or its remote holds the revision; and one
      without required uploads was recorded under local-only cleanup, or is held somewhere all the same. */
  ghost predicate SafelyPublished(w: World, s: Sys, k: Revision) {
    && Published(s.db, k) && k in s.catalog && w.good(k, s.catalog[k])
    && (StateLaws.HasRequired(s.db, k) || k in s.localOnly || exists u :: Holds(w, s, k, u))
    && forall u :: u in s.db.uploads && u.0 == k && s.db.uploads[u].required ==>
        s.db.uploads[u].status == RetiredByOperator
        || Holds(w, s, k, u)
  }

  /** Some revision lists the capture, and each that does was made from it and is safely published. */
  ghost predicate SafeToDelete(w: World, s: Sys, id: string) {
    && (exists i :: i in s.db.inputs && i.1 == id)
    && (forall i :: i in s.db.inputs && i.1 == id ==> SafelyPublished(w, s, i.0) && Recorded(s.db, s.catalog, i))
  }

  /** Retention safety: whenever a run is about to delete the raw payload of a capture, some revision lists the
      capture, and every revision that lists it was compacted from it (its manifest records the hash of the capture's
      row), is published, and each of its required destinations was retired or holds its data and manifest with
      matching hashes. */
  lemma RawDeletionIsSafe(w: World, actions: seq<Action>)
    requires WorldOk(w) && CanClean(w, Run(w, actions), RemovePayload)
    ensures SafeToDelete(w, Run(w, actions), Run(w, actions).janitor.captures[0])
  {
    RunKeeps(w, actions);
    DeletionIsSafe(w, Run(w, actions));
  }

  lemma DeletionIsSafe(w: World, s: Sys)
    requires Inv(w, s) && s.janitor.RawPass? && |s.janitor.captures| > 0
    ensures SafeToDelete(w, s, s.janitor.captures[0])
  {
    var id := s.janitor.captures[0];
    assert id in s.janitor.captures && StateLaws.Released(s.db, id);
    forall i | i in s.db.inputs && i.1 == id ensures SafelyPublished(w, s, i.0) && Recorded(s.db, s.catalog, i) {
      ReleasedIsPublished(w, s, id, i.0);
    }
  }

  lemma ReleasedIsPublished(w: World, s: Sys, id: string, k: Revision)
    requires Inv(w, s) && StateLaws.Released(s.db, id) && (k, id) in s.db.inputs
    ensures SafelyPublished(w, s, k) && Recorded(s.db, s.catalog, (k, id))
  {
    assert Recorded(s.db, s.catalog, (k, id));
    assert RevisionOk(w, s.db, s.catalog, s.local, k);
    assert Published(s.db, k);
    if !StateLaws.HasRequired(s.db, k) && k !in s.localOnly {
      var u :| Vouches(s.db, k, u);
      assert StatusOk(s.db.uploads[u]) && Holds(w, s, k, u);
    }
  }

  /** Retention never strands a required upload: while one is not verified or retired, its revision keeps both local
      files and its paths, and the row is not expired. */
  lemma RequiredNeverStranded(w: World, actions: seq<Action>, u: UploadKey)
    requires WorldOk(w)
    requires var s := Run(w, actions); u in s.db.uploads && s.db.uploads[u].required && !Settled(s.db.uploads[u].status)
    ensures var s := Run(w, actions);
      && u.0 in s.db.compactions && !Published(s.db, u.0) && s.db.compactions[u.0].manifestPath != ""
      && u.0 in s.catalog && u.0 in s.local && s.local[u.0] == Full(s.catalog[u.0])
      && s.db.uploads[u].status != Expired
  {
    RunKeeps(w, actions);
    var s := Run(w, actions);
    assert StateLaws.HasRequired(s.db, u.0) && PendingRequired(s.db.uploads, u.0);
    assert RevisionOk(w, s.db, s.catalog, s.local, u.0);
  }

  /** An optional row has no such protection: expired while its upload is in flight, it ends verified although the
      local files are gone and the row was closed. */
  lemma ExpiredRowComesBack(w: World, s: Sys, d: string, now: int)
    requires CanClean(w, s, MarkParquet) && CanUpload(w, s, d, FinishUpload(now))
    requires var u := s.workers[d].queue[0];
      u.0 == s.janitor.revisions[0] && RowOk(s.db, d, u) && !s.db.uploads[u].required
    ensures var u := s.workers[d].queue[0];
      var t := DoClean(w, s, MarkParquet);
      && u in t.db.uploads && t.db.uploads[u].status == Expired
      && CanUpload(w, t, d, FinishUpload(now))
      && u in DoUpload(w, t, d, FinishUpload(now)).db.uploads
      && DoUpload(w, t, d, FinishUpload(now)).db.uploads[u].status == Verified
  {
    var u := s.workers[d].queue[0];
    ExpiredThenVerified(s.db, u, s.workers[d].stage.dir, now);
  }

  lemma ExpiredThenVerified(db: DB, u: UploadKey, dir: string, now: int)
    requires u in db.uploads && !db.uploads[u].required && db.uploads[u].status != Verified
    ensures var e := MarkParquetRetained(db, u.0);
      var f := MarkUploadVerified(e, u, dir, now);
      && u in e.uploads && e.uploads[u].status == Expired && f.Some? && u in f.value.uploads
         && f.value.uploads[u].status == Verified
  {
    var e := MarkParquetRetained(db, u.0);
    VerifiedRow(e, u, dir, now);
  }

  // ---- publication ----

  /** The gate is exact in every reachable state. */
  lemma GateInEveryRun(w: World, actions: seq<Action>, k: Revision)
    requires WorldOk(w) && k in Run(w, actions).db.compactions && StateLaws.HasRequired(Run(w, actions).db, k)
    ensures var db := Run(w, actions).db;
      Published(db, k) <==> forall u :: u in db.uploads && u.0 == k && db.uploads[u].required ==>
        Settled(db.uploads[u].status)
  {
    RunKeeps(w, actions);
  }

  /** Manifest last: whenever a remote directory holds a manifest, every artifact that manifest lists is there with its
      recorded hash; and a verified row means both are there. */
  lemma ManifestIsLast(w: World, actions: seq<Action>)
    requires WorldOk(w)
    ensures var s := Run(w, actions);
      && (forall a: Address :: a in s.remote && a.2 == MANIFEST && s.remote[a].ManifestObject? ==>
           ArtifactsThere(w, s.remote, a.0, a.1, s.remote[a].m.files))
      && (forall u :: u in s.db.uploads && s.db.uploads[u].status == Verified ==>
           u.0 in s.catalog && RevisionThere(w, s.remote, u.1, s.db.uploads[u].remotePath, s.catalog[u.0].manifest))
  {
    RunKeeps(w, actions);
  }

  // ---- revisions ----

  lemma FetchGrows(w: World, s: Sys, a: FetchStep)
    requires CanFetch(w, s, a)
    ensures DoFetch(w, s, a).catalog == s.catalog && DoFetch(w, s, a).remote == s.remote
  {
  }

  lemma CompactGrows(w: World, s: Sys, a: CompactStep)
    requires JanitorOk(s.db, s.catalog, s.raw, s.janitor) && CanCompact(w, s, a)
    ensures DoCompact(w, s, a).remote == s.remote
    ensures forall k :: k in s.catalog ==>
      k in DoCompact(w, s, a).catalog && DoCompact(w, s, a).catalog[k] == s.catalog[k]
  {
    if a.WriteRevision? {
      assert JobOk(s.db, s.catalog, a.stream, s.janitor.jobs[a.stream]);
    }
  }

  lemma UploadGrows(w: World, s: Sys, d: string, a: UploadStep)
    requires CanUpload(w, s, d, a)
    ensures DoUpload(w, s, d, a).catalog == s.catalog && Grows(s.remote, DoUpload(w, s, d, a).remote)
  {
  }

  lemma CleanGrows(w: World, s: Sys, a: CleanStep)
    requires CanClean(w, s, a)
    ensures DoClean(w, s, a).catalog == s.catalog && DoClean(w, s, a).remote == s.remote
  {
  }

  lemma OperateGrows(w: World, s: Sys, a: OperatorStep)
    requires CanOperate(w, s, a)
    ensures DoOperate(w, s, a).catalog == s.catalog && DoOperate(w, s, a).remote == s.remote
  {
  }

  lemma FilesGrow(w: World, s: Sys, a: Action)
    requires JanitorOk(s.db, s.catalog, s.raw, s.janitor) && Enabled(w, s, a)
    ensures Grows(s.remote, Next(w, s, a).remote)
    ensures forall k :: k in s.catalog ==> k in Next(w, s, a).catalog && Next(w, s, a).catalog[k] == s.catalog[k]
  {
    match a {
      case Fetch(f) => FetchGrows(w, s, f);
      case Compact(c) => CompactGrows(w, s, c);
      case Upload(d, u) => UploadGrows(w, s, d, u);
      case Clean(r) => CleanGrows(w, s, r);
      case Operate(o) => OperateGrows(w, s, o);
    }
  }

  /** The transaction a step runs on the tables, if any. */
  ghost function TransactionOf(w: World, s: Sys, a: Action): Option<StateLaws.Transaction>
    requires Enabled(w, s, a)
  {
    match a
    case Fetch(f) => FetchTransaction(f)
    case Compact(c) => CompactTransaction(w, s, c)
    case Upload(d, u) => UploadTransaction(w, s, d, u)
    case Clean(r) => CleanTransaction(w, s, r)
    case Operate(o) => OperateTransaction(w, s, o)
  }

  function FetchTransaction(a: FetchStep): Option<StateLaws.Transaction> {
    match a
    case CommitFiles(_, _) => None
    case Register(tick, id, c) => Some(StateLaws.CaptureSaved(tick, id, c))
    case NoteTick(id, tick) => Some(StateLaws.TickRecorded(id, tick))
  }

  ghost function CompactTransaction(w: World, s: Sys, a: CompactStep): Option<StateLaws.Transaction>
    requires CanCompact(w, s, a)
  {
    match a
    case SaveRevision(stream, allow, now) =>
      var k := s.janitor.jobs[stream].k;
      var p := s.catalog[k];
      Some(StateLaws.CompactionSaved(k, p.row(allow), p.ids, p.queue, now))
    case _ => None
  }

  ghost function UploadTransaction(w: World, s: Sys, d: string, a: UploadStep): Option<StateLaws.Transaction>
    requires CanUpload(w, s, d, a)
  {
    match a
    case BeginUpload(next) =>
      var u := s.workers[d].queue[0];
      Some(StateLaws.UploadAttempted(u, w.dirOf(d, s.local[u.0].manifest.value).value, next))
    case FinishUpload(now) => Some(StateLaws.UploadVerified(s.workers[d].queue[0], s.workers[d].stage.dir, now))
    case FailUpload(status, detail, next) =>
      Some(StateLaws.UploadFailed(s.workers[d].queue[0], status, detail, next))
    case _ => None
  }

  ghost function CleanTransaction(w: World, s: Sys, a: CleanStep): Option<StateLaws.Transaction>
    requires CanClean(w, s, a)
  {
    match a
    case MarkRaw => Some(StateLaws.CaptureReleased(s.janitor.captures[0]))
    case MarkParquet => Some(StateLaws.ParquetReleased(s.janitor.revisions[0]))
    case SummariseNext(start, end, now) => Some(StateLaws.DaySummarised(s.janitor.days[0], start, end, now))
    case _ => None
  }

  ghost function OperateTransaction(w: World, s: Sys, a: OperatorStep): Option<StateLaws.Transaction>
    requires CanOperate(w, s, a)
  {
    match a
    case Crash => None
    case Damage(_, _) => None
    case Adopt(k, allow, now) =>
      var p := s.catalog[k];
      Some(StateLaws.CompactionAdopted(k, p.row(allow), p.inputs, p.excluded, p.queue, now))
    case Backfill(d, now) => Some(StateLaws.Backfilled(d, now))
    case Retire(d, reason, now) => Some(StateLaws.Retired(d, reason, now))
  }

  function After(db: DB, t: Option<StateLaws.Transaction>): DB {
    if t.None? then db else StateLaws.Apply(db, t.value)
  }

  lemma UploadTransacts(w: World, s: Sys, d: string, a: UploadStep)
    requires CanUpload(w, s, d, a)
    ensures DoUpload(w, s, d, a).db == After(s.db, UploadTransaction(w, s, d, a))
  {
  }

  lemma CleanTransacts(w: World, s: Sys, a: CleanStep)
    requires CanClean(w, s, a)
    ensures DoClean(w, s, a).db == After(s.db, CleanTransaction(w, s, a))
  {
  }

  lemma OperateTransacts(w: World, s: Sys, a: OperatorStep)
    requires CanOperate(w, s, a)
    ensures DoOperate(w, s, a).db == After(s.db, OperateTransaction(w, s, a))
  {
  }

  lemma StepIsTransaction(w: World, s: Sys, a: Action)
    requires Enabled(w, s, a)
    ensures Next(w, s, a).db == After(s.db, TransactionOf(w, s, a))
  {
    match a {
      case Fetch(_) =>
      case Compact(_) =>
      case Upload(d, u) => UploadTransacts(w, s, d, u);
      case Clean(r) => CleanTransacts(w, s, r);
      case Operate(o) => OperateTransacts(w, s, o);
    }
  }

  lemma PublishedGrows(w: World, s: Sys, a: Action, k: Revision)
    requires Enabled(w, s, a) && Published(s.db, k)
    ensures Published(Next(w, s, a).db, k)
  {
    StepIsTransaction(w, s, a);
    if TransactionOf(w, s, a).Some? { StateLaws.PublishedStays(s.db, TransactionOf(w, s, a).value, k); }
  }

  /** The transactions of a run, in order. */
  ghost function Transactions(w: World, actions: seq<Action>): seq<StateLaws.Transaction> {
    if |actions| == 0 then []
    else
      var front, a := actions[..|actions|-1], actions[|actions|-1];
      Transactions(w, front)
      + (if Enabled(w, Run(w, front), a) && TransactionOf(w, Run(w, front), a).Some?
         then [TransactionOf(w, Run(w, front), a).value] else [])
  }

  /** On its tables, a run of the archive is the run of the transactions of its steps. */
  lemma {:induction false} RunIsTransactions(w: World, actions: seq<Action>)
    ensures Run(w, actions).db == StateLaws.Run(StateLaws.EMPTY, Transactions(w, actions))
  {
    if |actions| > 0 {
      var front, a := actions[..|actions|-1], actions[|actions|-1];
      RunIsTransactions(w, front);
      assert Transactions(w, front) + [] == Transactions(w, front);
      if Enabled(w, Run(w, front), a) {
        StepIsTransaction(w, Run(w, front), a);
        if TransactionOf(w, Run(w, front), a).Some? {
          var ts := Transactions(w, front);
          assert Transactions(w, actions)[..|ts|] == ts;
        }
      }
    }
  }

  // ---- conservation ----

  /** The tick rows and capture rows of a stream that a step inserts: recording a tick, or registering a capture. */
  function TicksIn(db: DB, a: Action, stream: Stream): nat {
    match a
    case Fetch(NoteTick(id, tick)) => if id !in db.ticks && tick.stream == stream then 1 else 0
    case Fetch(Register(tick, id, c)) =>
      if !CaptureConflict(db, id, c) && c.tickId !in db.ticks && tick.stream == stream then 1 else 0
    case _ => 0
  }

  function CapturesIn(db: DB, a: Action, stream: Stream): nat {
    match a
    case Fetch(Register(tick, id, c)) => if !CaptureConflict(db, id, c) && c.day.stream == stream then 1 else 0
    case _ => 0
  }

  ghost function TicksEver(w: World, actions: seq<Action>, stream: Stream): nat {
    if |actions| == 0 then 0
    else
      var front, a := actions[..|actions|-1], actions[|actions|-1];
      TicksEver(w, front, stream) + if Enabled(w, Run(w, front), a) then TicksIn(Run(w, front).db, a, stream) else 0
  }

  ghost function CapturesEver(w: World, actions: seq<Action>, stream: Stream): nat {
    if |actions| == 0 then 0
    else
      var front, a := actions[..|actions|-1], actions[|actions|-1];
      CapturesEver(w, front, stream)
      + if Enabled(w, Run(w, front), a) then CapturesIn(Run(w, front).db, a, stream) else 0
  }

  lemma StepCounts(w: World, s: Sys, a: Action, stream: Stream)
    requires Enabled(w, s, a)
    ensures StateLaws.TickTally(Next(w, s, a).db, stream)
      == StateLaws.TickTally(s.db, stream) + TicksIn(s.db, a, stream)
    ensures StateLaws.CaptureTally(Next(w, s, a).db, stream)
      == StateLaws.CaptureTally(s.db, stream) + CapturesIn(s.db, a, stream)
  {
    StepIsTransaction(w, s, a);
    var t := TransactionOf(w, s, a);
    if t.Some? { StateLaws.TallyStep(s.db, t.value, stream); }
  }

  /** No row is ever lost uncounted: over any run of the archive, the tick rows its steps inserted for a stream are its
      live ticks plus the ticks its summaries count, and likewise for captures. */
  lemma {:induction false} RowsConserved(w: World, actions: seq<Action>, stream: Stream)
    ensures StateLaws.TickTally(Run(w, actions).db, stream) == TicksEver(w, actions, stream)
    ensures StateLaws.CaptureTally(Run(w, actions).db, stream) == CapturesEver(w, actions, stream)
  {
    if |actions| == 0 {
      StateLaws.RunConserves([], stream);
    } else {
      var front, a := actions[..|actions|-1], actions[|actions|-1];
      RowsConserved(w, front, stream);
      if Enabled(w, Run(w, front), a) { StepCounts(w, Run(w, front), a, stream); }
    }
  }

  /** Summarisation conserves counts in every run of the archive. */
  lemma SummariesBalance(w: World, actions: seq<Action>)
    ensures forall day :: day in Run(w, actions).db.summaries ==>
      StateLaws.SummaryAdds(Run(w, actions).db.summaries[day])
  {
    RunIsTransactions(w, actions);
    StateLaws.RunSummariesBalance(Transactions(w, actions));
  }

  lemma StepGrows(w: World, s: Sys, a: Action)
    requires Inv(w, s) && Enabled(w, s, a)
    ensures Grown(s, Next(w, s, a))
  {
    FilesGrow(w, s, a);
    forall k | Published(s.db, k) ensures Published(Next(w, s, a).db, k) {
      PublishedGrows(w, s, a, k);
    }
  }

  ghost predicate Grown(s: Sys, t: Sys) {
    && (forall k :: k in s.catalog ==> k in t.catalog && t.catalog[k] == s.catalog[k])
    && Grows(s.remote, t.remote)
    && (forall k :: Published(s.db, k) ==> Published(t.db, k))
  }

  /** No directory is rewritten, no remote object replaced and no publication undone, however the run goes on. */
  lemma {:induction false} NothingRewritten(w: World, actions: seq<Action>, n: nat)
    requires WorldOk(w) && n <= |actions|
    ensures Grown(Run(w, actions[..n]), Run(w, actions))
    decreases |actions|
  {
    if n == |actions| {
      assert actions[..n] == actions;
    } else {
      var front := actions[..|actions|-1];
      assert front[..n] == actions[..n];
      NothingRewritten(w, front, n);
      RunKeeps(w, front);
      var s, a := Run(w, front), actions[|actions|-1];
      if Enabled(w, s, a) {
        StepGrows(w, s, a);
        GrownTwice(Run(w, actions[..n]), s, Next(w, s, a));
      }
    }
  }

  lemma GrownTwice(s: Sys, t: Sys, u: Sys)
    requires Grown(s, t) && Grown(t, u)
    ensures Grown(s, u)
  {
  }

  /** The revisions of a day are 1 to n, and at most one directory waits for adoption: that of revision n + 1. */
  lemma RevisionsAreGapless(w: World, actions: seq<Action>, day: Day, j: Revision, k: Revision)
    requires WorldOk(w)
    ensures var s := Run(w, actions);
      && StateLaws.Gapless(s.db, day)
      && (k in s.catalog && k !in s.db.compactions ==> k.number == NextRevision(s.db, k.day))
      && (j in s.catalog && k in s.catalog && j !in s.db.compactions && k !in s.db.compactions && j.day == k.day ==>
         j == k)
  {
    RunKeeps(w, actions);
    var s := Run(w, actions);
    assert j in s.catalog ==> RevisionOk(w, s.db, s.catalog, s.local, j);
    assert k in s.catalog ==> RevisionOk(w, s.db, s.catalog, s.local, k);
  }

  // ---- registration ----

  /** A capture is registered at most once over a whole run: one whose files were retained, or whose day was
      summarised, has nothing left from which recovery could register it again. */
  lemma RegisteredOnce(w: World, actions: seq<Action>, tick: Tick, id: string, c: Capture)
    requires WorldOk(w) && CanFetch(w, Run(w, actions), Register(tick, id, c))
    ensures id in Run(w, actions).raw.registered ==> SaveCapture(Run(w, actions).db, tick, id, c).None?
    ensures id in Run(w, actions).raw.registered ==>
      id in Run(w, actions).db.captures && Run(w, actions).db.captures[id].rawPath.Live?
  {
    RunKeeps(w, actions);
  }

  // ---- what the published revision holds ----

  /** The package of one compaction. */
  ghost function PackageOf(env: A.Env, cfg: C.Config, stream: C.Stream, k: Revision, captures: seq<A.Capture>,
                           m: C.Manifest, read: map<string, A.Bytes>): Package {
    Package(m, if |captures| == 0 then None else Some(C.DataOf(env, stream.expectedKind, captures)), read,
            A.IdList(captures), Reconcile.AdoptedInputs(C.InputsOf(captures)), Reconcile.ExcludedIds(m.excluded),
            D.Queue(cfg.destinations), allow => C.RowOf(C.RevisionDirectory(k), m, allow))
  }

  /** What one compaction was made of. */
  datatype Origin = Origin(env: A.Env, cfg: C.Config, stream: C.Stream, captures: seq<A.Capture>)

  /** The compaction hashed and decoded as the world does, and the raw store gave it what it read. */
  ghost predicate SameWorld(w: World, read: map<string, A.Bytes>, o: Origin) {
    && (forall data :: o.env.hash(data) == w.hash(DataObject(data)))
    && (forall body :: o.env.digest(body) == w.digest(body) && o.env.decode(body) == w.decode(body))
    && forall c :: c in o.captures ==>
        if c.id in read then o.env.raw(c.rawPath) == A.Content(read[c.id]) else !o.env.raw(c.rawPath).Content?
  }

  ghost predicate MadeFrom(w: World, k: Revision, p: Package, o: Origin) {
    && D.Identified(o.cfg.destinations) && A.DistinctIds(o.captures) && SameWorld(w, p.read, o)
    && (|o.captures| == 0 || |A.Included(o.env, o.captures)| > 0)
    && p.manifest == C.ManifestOf(o.env, o.cfg, o.stream, k, o.captures, p.manifest.sanitizedUrl, p.manifest.tally,
                                  p.manifest.createdAt)
    && p == PackageOf(o.env, o.cfg, o.stream, k, o.captures, p.manifest, p.read)
  }

  /** Every package is the work of Compact. */
  ghost predicate Compacted(w: World) {
    forall k, p :: w.good(k, p) ==> exists o :: MadeFrom(w, k, p, o)
  }

  lemma MadeIsSound(w: World, k: Revision, p: Package, o: Origin)
    requires MadeFrom(w, k, p, o)
    ensures Sound(p)
  {
    forall i | i in p.inputs ensures i.id in p.ids {
      var n :| 0 <= n < |p.inputs| && p.inputs[n] == i;
      assert p.ids[n] == i.id;
    }
    NoneRequired(o.cfg, p.manifest);
  }

  lemma NoneRequired(cfg: C.Config, m: C.Manifest)
    requires D.Identified(cfg.destinations) && m.destinations == D.SortDestinations(cfg.destinations)
    requires m.requiredDestinations == D.Sorted(D.RequiredIds(cfg.destinations))
    ensures m.requiredDestinations == [] ==> forall d :: d in D.Queue(cfg.destinations) ==>
      !D.Queue(cfg.destinations)[d]
  {
    D.WrittenSnapshotOk(cfg.destinations);
    Reconcile.QueueRebuilt(cfg, m);
    if m.requiredDestinations == [] { D.EmptyRequiredQueuesNone(m.destinations, m.requiredDestinations); }
  }

  lemma CompactedWorldOk(w: World)
    requires Compacted(w)
    ensures WorldOk(w)
  {
    forall k, p | w.good(k, p) ensures Sound(p) {
      var o :| MadeFrom(w, k, p, o);
      MadeIsSound(w, k, p, o);
    }
  }

  /** The payload was read, and hashes to what the capture's row records. */
  predicate Intact(w: World, read: map<string, A.Bytes>, c: A.Capture) {
    c.id in read && w.digest(read[c.id]) == c.sha256
  }

  /** The artifact holds the body of the capture: in a nested revision the bytes themselves, in a flattened one exactly
      the rows they decode to, which are none when they hold no trip update. */
  predicate HoldsBody(w: World, data: A.Data, c: A.Capture, body: A.Bytes) {
    match data
    case Nested(rows) => A.NestedRow(c.id, c.sha256, c.entityCount, w.decode(body), body) in rows
    case Flat(rows) => A.RowsNamed(rows, c.id) == Flattened(w.decode(body), A.ProvenanceOf(c))
  }

  /** Where a capture went: into the artifact when its payload was intact, and else, and only then, into the
      exclusions. */
  predicate Accounted(w: World, p: Package, c: A.Capture) {
    && (Intact(w, p.read, c) ==> p.data.Some? && HoldsBody(w, p.data.value, c, p.read[c.id]))
    && (!Intact(w, p.read, c) <==> A.NamedInExclusions(p.manifest.excluded, c.id))
  }

  lemma CaptureAccounted(w: World, k: Revision, p: Package, o: Origin, c: A.Capture)
    requires MadeFrom(w, k, p, o) && c in o.captures
    ensures Accounted(w, p, c)
  {
    A.Partition(o.env, o.captures);
    assert forall d :: d in o.captures && d.id == c.id ==> d == c;
    assert Intact(w, p.read, c) <==> A.Readable(o.env, c);
    if A.Readable(o.env, c) {
      A.FlatRowsNamed(o.env, o.captures, c.id);
      A.NestedCoverage(o.env, o.captures, c);
    } else {
      assert A.Exclusion(c.id, A.ReadVerified(o.env, c).reason) in A.Exclusions(o.env, o.captures);
    }
  }

  /** A destination holds a revision: its directory has an object with the artifact's hash, beside a manifest with the
      manifest's hash. */
  predicate DestinationHolds(w: World, s: Sys, k: Revision, u: UploadKey) {
    && u in s.db.uploads && k in s.catalog && s.catalog[k].data.Some?
    && ManifestThere(w, s.remote, u.1, s.db.uploads[u].remotePath, s.catalog[k].manifest)
    && exists a: Address :: a in s.remote && a.0 == u.1 && a.1 == s.db.uploads[u].remotePath
        && w.hash(s.remote[a]) == w.hash(DataObject(s.catalog[k].data.value))
  }

  /** The revision is held wherever it had to go. */
  ghost predicate HeldEverywhere(w: World, s: Sys, k: Revision) {
    && (forall u :: u in s.db.uploads && u.0 == k && s.db.uploads[u].required ==>
        s.db.uploads[u].status == RetiredByOperator || DestinationHolds(w, s, k, u))
    && (StateLaws.HasRequired(s.db, k) || k in s.localOnly
        || exists u: UploadKey :: u.0 == k && DestinationHolds(w, s, k, u))
  }

  /** The revision was compacted from the capture: same ID and same hash as its row, accounted for; and a payload that
      was read and not damaged is the one that is there now, so its very bytes are in the artifact. */
  ghost predicate MadeOf(w: World, s: Sys, k: Revision, id: string, c: A.Capture) {
    && k in s.catalog && c.id == id && id in s.db.captures && c.sha256 == s.db.captures[id].sha256
    && Accounted(w, s.catalog[k], c)
    && (id in s.catalog[k].read && id in s.raw.payloads && id !in s.raw.damaged ==>
        s.catalog[k].data.Some? && HoldsBody(w, s.catalog[k].data.value, c, s.raw.payloads[id]))
  }

  ghost predicate SafelyHeld(w: World, s: Sys, k: Revision, id: string) {
    (exists c :: MadeOf(w, s, k, id, c)) && HeldEverywhere(w, s, k)
  }

  /** Some revision lists the capture, and each that does was compacted from it and is held. */
  ghost predicate ArchivedOrExcluded(w: World, s: Sys, id: string) {
    && (exists i :: i in s.db.inputs && i.1 == id)
    && (forall i :: i in s.db.inputs && i.1 == id ==> SafelyHeld(w, s, i.0, id))
  }

  lemma HeldAtDestination(w: World, s: Sys, k: Revision, o: Origin, u: UploadKey)
    requires k in s.catalog && MadeFrom(w, k, s.catalog[k], o) && |o.captures| > 0 && u in s.db.uploads
    requires RevisionThere(w, s.remote, u.1, s.db.uploads[u].remotePath, s.catalog[k].manifest)
    ensures DestinationHolds(w, s, k, u)
  {
    var entry := C.Entry(o.env, o.stream.expectedKind, o.captures);
    assert s.catalog[k].manifest.files == [entry];
    assert entry in s.catalog[k].manifest.files;
    assert ArtifactThere(w, s.remote, u.1, s.db.uploads[u].remotePath, entry);
    var a: Address := (u.1, s.db.uploads[u].remotePath, entry.relativePath);
    assert a in s.remote;
  }

  /** The archive's central promise, end to end: the raw payload of a capture is deleted only when every revision
      listing it was compacted from that capture, with the hash its row records, with its bytes in the artifact or its
      exclusion in the manifest, and every required destination of that revision was retired or holds that artifact and
      manifest by hash. Excluded are exactly the payloads that could not be read or did not have the recorded hash. */
  lemma DeletedBytesAreArchived(w: World, actions: seq<Action>)
    requires Compacted(w) && CanClean(w, Run(w, actions), RemovePayload)
    ensures ArchivedOrExcluded(w, Run(w, actions), Run(w, actions).janitor.captures[0])
  {
    CompactedWorldOk(w);
    RawDeletionIsSafe(w, actions);
    RunKeeps(w, actions);
    InvReads(w, Run(w, actions), Run(w, actions).janitor.captures[0]);
    HeldByAll(w, Run(w, actions), Run(w, actions).janitor.captures[0]);
  }

  lemma HeldByAll(w: World, s: Sys, id: string)
    requires Compacted(w) && SafeToDelete(w, s, id) && ReadsOk(s.catalog, s.raw)
    requires id in s.db.captures ==> Hashed(w, s.db, s.raw, id)
    ensures ArchivedOrExcluded(w, s, id)
  {
    forall i | i in s.db.inputs && i.1 == id ensures SafelyHeld(w, s, i.0, id) {
      RevisionHeld(w, s, i.0, id);
    }
  }

  lemma InvReads(w: World, s: Sys, id: string)
    requires Inv(w, s)
    ensures ReadsOk(s.catalog, s.raw) && (id in s.db.captures ==> Hashed(w, s.db, s.raw, id))
  {
  }

  lemma CaptureRecorded(w: World, k: Revision, p: Package, o: Origin, id: string, sha: string) returns (c: A.Capture)
    requires MadeFrom(w, k, p, o) && Input(id, sha) in p.inputs
    ensures c in o.captures && c.id == id && c.sha256 == sha
  {
    var n :| 0 <= n < |p.inputs| && p.inputs[n] == Input(id, sha);
    c := o.captures[n];
  }

  lemma RevisionHeld(w: World, s: Sys, k: Revision, id: string)
    requires Compacted(w) && SafelyPublished(w, s, k) && Recorded(s.db, s.catalog, (k, id))
    requires ReadsOk(s.catalog, s.raw) && Hashed(w, s.db, s.raw, id)
    ensures SafelyHeld(w, s, k, id)
  {
    var p := s.catalog[k];
    var o :| MadeFrom(w, k, p, o);
    var c := CaptureRecorded(w, k, p, o, id, s.db.captures[id].sha256);
    CaptureAccounted(w, k, p, o, c);
    assert id in p.read ==> Unchanged(p.read, s.raw, id);
    assert MadeOf(w, s, k, id, c);
    forall u | u in s.db.uploads && u.0 == k && s.db.uploads[u].required && s.db.uploads[u].status != RetiredByOperator
      ensures DestinationHolds(w, s, k, u)
    {
      HeldAtDestination(w, s, k, o, u);
    }
    if !StateLaws.HasRequired(s.db, k) && k !in s.localOnly {
      var u :| Holds(w, s, k, u);
      HeldAtDestination(w, s, k, o, u);
    }
  }
}
