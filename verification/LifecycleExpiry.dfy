/** Optional uploads that retention expired while a worker held them. */
module LifecycleExpiry {
  import opened Prelude
  import opened Tables
  import opened Lifecycle
  import opened LifecycleSafety
  import opened LifecycleTheorems
  import opened LifecycleWitness
  import opened LifecycleCases
  import C = Compact
  import D = Destinations
  import StateLaws

  predicate IsExpired(db: DB, u: UploadKey) {
    u in db.uploads && db.uploads[u].status == Expired
  }

  /** Some worker still has the row to do. */
  predicate InSomeHand(s: Sys, u: UploadKey) {
    exists d :: d in s.workers && u in s.workers[d].queue
  }

  /** Closed for good: expired, and in nobody's hands. */
  predicate Closed(s: Sys, u: UploadKey) {
    IsExpired(s.db, u) && !InSomeHand(s, u)
  }

  /** What the invariant says of the row. */
  predicate Grounded(db: DB, u: UploadKey) {
    u.0 in db.compactions && (u in db.uploads ==> StatusOk(db.uploads[u]))
  }

  lemma InvGrounds(w: World, s: Sys, u: UploadKey)
    requires Inv(w, s) && u in s.db.uploads
    ensures Grounded(s.db, u)
  {
  }

  lemma InvFront(w: World, s: Sys, d: string)
    requires Inv(w, s) && d in s.workers && |s.workers[d].queue| > 0
    ensures RowOk(s.db, d, s.workers[d].queue[0])
  {
    assert WorkerOk(w, s.db, s.catalog, s.remote, d, s.workers[d]);
  }

  lemma ClosedByRow(s: Sys, t: Sys, u: UploadKey)
    requires Closed(s, u) && u in t.db.uploads && t.db.uploads[u] == s.db.uploads[u] && t.workers == s.workers
    ensures Closed(t, u)
  {
  }

  lemma CompactStays(w: World, s: Sys, a: CompactStep, u: UploadKey)
    requires Grounded(s.db, u) && Closed(s, u) && CanCompact(w, s, a)
    ensures Closed(DoCompact(w, s, a), u)
  {
    assert DoCompact(w, s, a).db.uploads[u] == s.db.uploads[u];
    ClosedByRow(s, DoCompact(w, s, a), u);
  }

  /** A worker's step hands it nothing but workable rows, and leaves the other workers and the rows it does not hold as
      they are. */
  lemma UploadAside(w: World, s: Sys, d: string, a: UploadStep, u: UploadKey)
    requires CanUpload(w, s, d, a) && u in s.db.uploads && (d in s.workers ==> u !in s.workers[d].queue)
    ensures var t := DoUpload(w, s, d, a);
      && u in t.db.uploads && t.db.uploads[u] == s.db.uploads[u]
      && (forall o :: o != d && o in t.workers ==> o in s.workers && t.workers[o] == s.workers[o])
  {
  }

  lemma OwnQueue(w: World, s: Sys, d: string, a: UploadStep, u: UploadKey)
    requires CanUpload(w, s, d, a) && IsExpired(s.db, u) && (d in s.workers ==> u !in s.workers[d].queue)
    ensures d in DoUpload(w, s, d, a).workers ==> u !in DoUpload(w, s, d, a).workers[d].queue
  {
    if a.ListUploads? { assert !Workable(s.db, u, a.now); }
  }

  lemma UploadStays(w: World, s: Sys, d: string, a: UploadStep, u: UploadKey)
    requires Closed(s, u) && CanUpload(w, s, d, a)
    ensures Closed(DoUpload(w, s, d, a), u)
  {
    UploadAside(w, s, d, a, u);
    OwnQueue(w, s, d, a, u);
  }

  lemma CleanStays(w: World, s: Sys, a: CleanStep, u: UploadKey)
    requires Closed(s, u) && CanClean(w, s, a)
    ensures Closed(DoClean(w, s, a), u)
  {
    var t := DoClean(w, s, a);
    assert t.workers == s.workers;
    if a.MarkParquet? {
      assert IsExpired(t.db, u);
    }
  }

  lemma OperateStays(w: World, s: Sys, a: OperatorStep, u: UploadKey)
    requires Grounded(s.db, u) && Closed(s, u) && CanOperate(w, s, a)
    ensures Closed(DoOperate(w, s, a), u)
  {
    assert IsExpired(DoOperate(w, s, a).db, u);
  }

  /** A closed row stays closed: no step relists it, retires it or touches it. */
  lemma StepStays(w: World, s: Sys, a: Action, u: UploadKey)
    requires Grounded(s.db, u) && Closed(s, u) && Enabled(w, s, a)
    ensures Closed(Next(w, s, a), u)
  {
    match a {
      case Fetch(f) => ClosedByRow(s, DoFetch(w, s, f), u);
      case Compact(c) => CompactStays(w, s, c, u);
      case Upload(d, x) => UploadStays(w, s, d, x, u);
      case Clean(r) => CleanStays(w, s, r, u);
      case Operate(o) => OperateStays(w, s, o, u);
    }
  }

  lemma {:induction false} ClosedForGood(w: World, actions: seq<Action>, more: seq<Action>, u: UploadKey)
    requires WorldOk(w) && Closed(Run(w, actions), u)
    ensures Closed(Run(w, actions + more), u)
    decreases |more|
  {
    if |more| == 0 {
      assert actions + more == actions;
    } else {
      var front := more[..|more|-1];
      assert (actions + more)[..|actions + more|-1] == actions + front;
      ClosedForGood(w, actions, front, u);
      RunKeeps(w, actions + front);
      InvGrounds(w, Run(w, actions + front), u);
      if Enabled(w, Run(w, actions + front), more[|more|-1]) {
        StepStays(w, Run(w, actions + front), more[|more|-1], u);
      }
    }
  }

  const GIVE_UP: UploadStep := FailUpload(Retry, "", 0)

  lemma RunNext(w: World, actions: seq<Action>, a: Action)
    requires Enabled(w, Run(w, actions), a)
    ensures Run(w, actions + [a]) == Next(w, Run(w, actions), a)
  {
    assert (actions + [a])[..|actions|] == actions;
  }

  lemma GiveUpStep(w: World, s: Sys, d: string)
    requires d in s.workers && |s.workers[d].queue| > 0 && RowOk(s.db, d, s.workers[d].queue[0])
    ensures CanUpload(w, s, d, GIVE_UP)
    ensures var u, t := s.workers[d].queue[0], DoUpload(w, s, d, GIVE_UP);
      && d in t.workers && t.workers[d].queue == s.workers[d].queue[1..]
      && u in t.db.uploads && t.db.uploads[u].status == Retry
  {
  }

  lemma GivesUpOne(w: World, actions: seq<Action>, d: string)
    requires WorldOk(w)
    requires var s := Run(w, actions); d in s.workers && |s.workers[d].queue| > 0
    ensures var s, t := Run(w, actions), Run(w, actions + [Action.Upload(d, GIVE_UP)]);
      && d in t.workers && t.workers[d].queue == s.workers[d].queue[1..]
      && s.workers[d].queue[0] in t.db.uploads && t.db.uploads[s.workers[d].queue[0]].status == Retry
  {
    var s, a := Run(w, actions), Action.Upload(d, GIVE_UP);
    RunKeeps(w, actions);
    InvFront(w, s, d);
    GiveUpStep(w, s, d);
    RunNext(w, actions, a);
  }

  /** The worker gives up row after row until it has given up row `n`. */
  lemma {:induction false} GivesUp(w: World, actions: seq<Action>, d: string, n: nat) returns (more: seq<Action>)
    requires WorldOk(w)
    requires var s := Run(w, actions); d in s.workers && n < |s.workers[d].queue|
    ensures var u := Run(w, actions).workers[d].queue[n];
      var t := Run(w, actions + more); u in t.db.uploads && t.db.uploads[u].status == Retry
    decreases n
  {
    var a := Action.Upload(d, GIVE_UP);
    GivesUpOne(w, actions, d);
    if n == 0 {
      more := [a];
    } else {
      var rest := GivesUp(w, actions + [a], d, n - 1);
      more := [a] + rest;
      assert actions + [a] + rest == actions + more;
    }
  }

  /** An expired row leaves that state in some continuation exactly when a worker held it when it was expired and still
      does: required rows never expire, and an expired row is never listed again. */
  lemma ComesBackExactly(w: World, actions: seq<Action>, u: UploadKey)
    requires WorldOk(w) && IsExpired(Run(w, actions).db, u)
    ensures (exists more :: !IsExpired(Run(w, actions + more).db, u)) <==> InSomeHand(Run(w, actions), u)
  {
    var s := Run(w, actions);
    if InSomeHand(s, u) {
      var d :| d in s.workers && u in s.workers[d].queue;
      var n :| 0 <= n < |s.workers[d].queue| && s.workers[d].queue[n] == u;
      var more := GivesUp(w, actions, d, n);
      assert !IsExpired(Run(w, actions + more).db, u);
    } else {
      forall more ensures IsExpired(Run(w, actions + more).db, u) {
        ClosedForGood(w, actions, more, u);
      }
    }
  }

  // ---- a run in which it happens ----

  /** The revision is published, its files are removed, and the worker has copied everything but not marked its row. */
  lemma FilesGone(w: World, s: Sys, y: Way, at: int) returns (t: Sys)
    requires Reachable(w, s) && InHand(s, y, Copied(y.p.manifest, y.dir)) && y.p.row(y.allow).publishedAt == Some(at)
    requires y.p.row(y.allow).manifestPath != ""
    ensures Reachable(w, t) && t.db == s.db && t.workers == s.workers
      && t.local == map[RevisionOf(y) := LocalFiles(None, None)]
    ensures t.janitor == ParquetPass([RevisionOf(y)], 2)
  {
    t := ReleaseStarted(w, s, y, at);
    StepReaches(w, t, Clean(RemoveData));
    t := DoClean(w, t, RemoveData);
    StepReaches(w, t, Clean(RemoveManifest));
    t := DoClean(w, t, RemoveManifest);
  }

  lemma ReleaseStarted(w: World, s: Sys, y: Way, at: int) returns (t: Sys)
    requires Reachable(w, s) && InHand(s, y, Copied(y.p.manifest, y.dir)) && y.p.row(y.allow).publishedAt == Some(at)
    requires y.p.row(y.allow).manifestPath != ""
    ensures Reachable(w, t) && t == s.(janitor := ParquetPass([RevisionOf(y)], 0))
  {
    StepReaches(w, s, Clean(StartCleanup([], at)));
    t := DoClean(w, s, StartCleanup([], at));
    StepReaches(w, t, Clean(StartParquet([RevisionOf(y)], at)));
    t := DoClean(w, t, StartParquet([RevisionOf(y)], at));
  }

  /** The row of a case: optional, with local-only cleanup allowed, so that its revision is published when recorded. */
  ghost predicate OptionalCase(x: Case) {
    Proper(x) && !x.d.required && x.allow
  }

  lemma PublishedAtOnce(x: Case)
    requires OptionalCase(x)
    ensures PackageIn(x).row(true).publishedAt == Some(x.now) && PackageIn(x).row(true).manifestPath != ""
  {
    assert D.RequiredIds([x.d]) == D.RequiredIds([x.d][1..]) == [];
    CaseCompacted(x);
    CompactedWorldOk(WorldIn(x));
    assert WorldIn(x).good(Revision(x.row.day, 1), PackageIn(x));
  }

  /** The row is expired and its files are gone, and its worker can still end it verified or, failing, waiting for a
      retry that has nothing left to send. */
  ghost predicate ComesBack(w: World, s: Sys, k: Revision, d: string) {
    var u := (k, d);
    && IsExpired(s.db, u) && k in s.local && s.local[k] == LocalFiles(None, None)
    && (forall now :: EndsVerified(w, s, u, now)) && (forall detail, next :: EndsFailed(w, s, u, Retry, detail, next))
  }

  ghost predicate EndsVerified(w: World, s: Sys, u: UploadKey, now: int) {
    && CanUpload(w, s, u.1, FinishUpload(now))
    && u in DoUpload(w, s, u.1, FinishUpload(now)).db.uploads
    && DoUpload(w, s, u.1, FinishUpload(now)).db.uploads[u].status == Verified
  }

  ghost predicate EndsFailed(w: World, s: Sys, u: UploadKey, status: Status, detail: string, next: int) {
    && CanUpload(w, s, u.1, FailUpload(status, detail, next))
    && u in DoUpload(w, s, u.1, FailUpload(status, detail, next)).db.uploads
    && DoUpload(w, s, u.1, FailUpload(status, detail, next)).db.uploads[u].status == status
  }

  lemma EndsEitherWay(w: World, s: Sys, u: UploadKey, stage: Stage)
    requires u in s.db.uploads && u.1 in s.workers && s.workers[u.1] == Worker([u], stage) && stage.Copied?
    ensures (forall now :: EndsVerified(w, s, u, now))
      && (forall detail, next :: EndsFailed(w, s, u, Retry, detail, next))
  {
    forall now ensures EndsVerified(w, s, u, now) {
      EndVerified(w, s, u, stage, now);
    }
    forall detail, next ensures EndsFailed(w, s, u, Retry, detail, next) {
      EndFailed(w, s, u, stage, detail, next);
    }
  }

  lemma EndVerified(w: World, s: Sys, u: UploadKey, stage: Stage, now: int)
    requires u in s.db.uploads && u.1 in s.workers && s.workers[u.1] == Worker([u], stage) && stage.Copied?
    ensures EndsVerified(w, s, u, now)
  {
    VerifiedRow(s.db, u, stage.dir, now);
    assert DoUpload(w, s, u.1, FinishUpload(now)).db == MarkUploadVerified(s.db, u, stage.dir, now).value;
  }

  lemma EndFailed(w: World, s: Sys, u: UploadKey, stage: Stage, detail: string, next: int)
    requires u in s.db.uploads && u.1 in s.workers && s.workers[u.1] == Worker([u], stage)
    ensures EndsFailed(w, s, u, Retry, detail, next)
  {
    assert DoUpload(w, s, u.1, FailUpload(Retry, detail, next)).db == MarkUploadFailed(s.db, u, Retry, detail, next);
  }

  /** It does happen: in every case with an optional destination some run ends in such a state. */
  lemma ExpiredRowRun(x: Case, tick: Tick)
    requires OptionalCase(x)
    ensures exists actions :: ComesBack(WorldIn(x), Run(WorldIn(x), actions), Revision(x.row.day, 1), x.d.id)
  {
    var w, y := WorldIn(x), WayIn(x);
    CaseCompacted(x);
    CaseShips(x);
    CompactedWorldOk(w);
    PublishedAtOnce(x);
    var s := CopyReached(w, tick, y, 0);
    s := FilesGone(w, s, y, x.now);
    s := ExpiryReached(w, s, y);
    var actions :| Run(w, actions) == s;
    assert ComesBack(w, Run(w, actions), RevisionOf(y), y.d);
  }

  lemma ExpiryReached(w: World, s: Sys, y: Way) returns (t: Sys)
    requires Reachable(w, s) && s.janitor == ParquetPass([RevisionOf(y)], 2) && !y.required
    requires (RevisionOf(y), y.d) in s.db.uploads && !s.db.uploads[(RevisionOf(y), y.d)].required
    requires s.db.uploads[(RevisionOf(y), y.d)].status == Uploading
      && s.local == map[RevisionOf(y) := LocalFiles(None, None)]
    requires y.d in s.workers && s.workers[y.d] == Worker([(RevisionOf(y), y.d)], Copied(y.p.manifest, y.dir))
    ensures Reachable(w, t) && ComesBack(w, t, RevisionOf(y), y.d)
  {
    StepReaches(w, s, Clean(MarkParquet));
    t := DoClean(w, s, MarkParquet);
    ExpiredThenVerified(s.db, (RevisionOf(y), y.d), y.dir, 0);
    EndsEitherWay(w, t, (RevisionOf(y), y.d), Copied(y.p.manifest, y.dir));
  }
}
