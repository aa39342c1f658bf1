/** One cleanup: local files of published revisions and their captures removed, rows marked, old days summarised. */
module Retention {
  import opened Prelude
  import opened Tables
  import StateLaws
  import StateStore

  datatype CleanupResult = CleanupResult(rawFiles: nat, parquetFiles: nat, summarizedDays: nat, bytes: nat)

  datatype Policy = Policy(hasRequired: bool, allowLocalOnlyCleanup: bool, rawCutoff: int, parquetCutoff: int,
    summaryCutoff: int)

  function SizeIn(files: map<string, nat>): string -> nat {
    p => if p in files then files[p] else 0
  }

  /** The bytes of all files. */
  ghost function Total(files: map<string, nat>): nat {
    Sum(files.Keys, SizeIn(files))
  }

  lemma TotalWithout(files: map<string, nat>, path: string)
    requires path in files
    ensures Total(files) == files[path] + Total(files - {path})
  {
    SumRemove(files.Keys, SizeIn(files), path);
    assert (files - {path}).Keys == files.Keys - {path};
    SumSame(files.Keys - {path}, SizeIn(files), SizeIn(files - {path}));
  }

  function PathOf(r: FileRef): string {
    match r case Live(path) => path case Retained => ""
  }

  // ---- the passes as functions on the tables ----

  function RetainAll(db: DB, ids: set<string>): DB {
    db.(captures := map id | id in db.captures :: if id in ids
          then db.captures[id].(rawPath := Retained, sidecarPath := Retained) else db.captures[id])
  }

  function ReleaseAll(db: DB, ks: set<Revision>): DB {
    db.(uploads := map u | u in db.uploads :: if u.0 in ks && !db.uploads[u].required
      && db.uploads[u].status != Verified
          then db.uploads[u].(status := Expired, lastError := "local_retention_elapsed") else db.uploads[u],
        compactions := map k | k in db.compactions :: if k in ks
          then db.compactions[k].(dataPath := "", manifestPath := "", dataBytes := 0) else db.compactions[k])
  }

  lemma RetainMore(db: DB, ids: set<string>, id: string)
    ensures MarkCaptureRetained(RetainAll(db, ids), id) == RetainAll(db, ids + {id})
  {
  }

  lemma ReleaseMore(db: DB, ks: set<Revision>, k: Revision)
    ensures MarkParquetRetained(ReleaseAll(db, ks), k) == ReleaseAll(db, ks + {k})
  {
    var a, b := MarkParquetRetained(ReleaseAll(db, ks), k), ReleaseAll(db, ks + {k});
    assert a.uploads == b.uploads;
    assert a.compactions == b.compactions;
  }

  function RawCandidates(db: DB, cutoff: int): set<string> {
    set id | id in db.captures && RawCandidate(db, id, cutoff)
  }

  function ParquetCandidates(db: DB, cutoff: int): set<Revision> {
    set k | k in db.compactions && ParquetCandidate(db, k, cutoff)
  }

  function SummaryCandidates(db: DB, cutoff: int): set<Day> {
    set k | k in db.compactions && SummaryCandidate(db, k.day, cutoff) :: k.day
  }

  /** The local path of one of the captures, or of one of the revisions. */
  predicate CapturePath(db: DB, ids: set<string>, path: string) {
    exists id :: id in ids && id in db.captures && (path == PathOf(db.captures[id].rawPath)
      || path == PathOf(db.captures[id].sidecarPath))
  }

  predicate RevisionPath(db: DB, ks: set<Revision>, path: string) {
    exists k :: k in ks && k in db.compactions && (path == db.compactions[k].dataPath
      || path == db.compactions[k].manifestPath)
  }

  // ---- what a cleanup may do, said of inputs, compactions and files ----

  /** Some revision lists the capture, and each one that does was published by the cutoff. */
  predicate OutBy(db: DB, id: string, cutoff: int) {
    && (exists k :: k in db.compactions && (k, id) in db.inputs)
    && (forall k :: k in db.compactions && (k, id) in db.inputs ==> StateLaws.PublishedBy(db.compactions[k], cutoff))
  }

  predicate FileOf(db: DB, id: string, path: string) {
    id in db.captures && (db.captures[id].rawPath == Live(path) || db.captures[id].sidecarPath == Live(path))
  }

  predicate ArtifactOf(db: DB, k: Revision, path: string) {
    k in db.compactions && (db.compactions[k].dataPath == path || db.compactions[k].manifestPath == path)
  }

  ghost function FilesOf(db: DB, files: map<string, nat>, ids: set<string>): set<string> {
    set p | p in files && p != "" && exists id :: id in ids && FileOf(db, id, p)
  }

  /** Retained are only captures whose revisions are out by the raw cutoff, released only revisions that are out by the
      Parquet cutoff. */
  predicate MarksDue(db: DB, policy: Policy, retained: set<string>, released: set<Revision>) {
    && (forall id :: id in retained ==>
        id in db.captures && db.captures[id].rawPath.Live? && OutBy(db, id, policy.rawCutoff))
    && (forall k :: k in released ==>
        k in db.compactions && StateLaws.PublishedBy(db.compactions[k], policy.parquetCutoff))
  }

  /** And so with the files that left the disk. */
  ghost predicate FilesDue(db: DB, policy: Policy, before: map<string, nat>, after: map<string, nat>) {
    forall p :: p in before && p !in after ==>
      || (exists id :: FileOf(db, id, p) && OutBy(db, id, policy.rawCutoff))
      || (exists k :: ArtifactOf(db, k, p) && StateLaws.PublishedBy(db.compactions[k], policy.parquetCutoff))
  }

  /** No file is left of what is marked. */
  ghost predicate FilesGone(db: DB, retained: set<string>, released: set<Revision>, files: map<string, nat>) {
    && (forall id, p :: id in retained && FileOf(db, id, p) && p != "" ==> p !in files)
    && (forall k, p :: k in released && ArtifactOf(db, k, p) && p != "" ==> p !in files)
  }

  function RetainedRow(c: Capture): Capture {
    c.(rawPath := Retained, sidecarPath := Retained)
  }

  function ReleasedRow(c: Compaction): Compaction {
    c.(dataPath := "", manifestPath := "", dataBytes := 0)
  }

  predicate Expires(u: Upload) {
    !u.required && u.status != Verified
  }

  function ExpiredRow(u: Upload): Upload {
    u.(status := Expired, lastError := "local_retention_elapsed")
  }

  /** Of the rows that remain, exactly those of the retained captures and released revisions lost their paths, and
      exactly the unverified optional uploads of the latter are expired. */
  ghost predicate RowsFollow(db: DB, e: DB, retained: set<string>, released: set<Revision>) {
    && e.captures.Keys <= db.captures.Keys && e.compactions.Keys == db.compactions.Keys
    && e.uploads.Keys == db.uploads.Keys
    && (forall id :: id in e.captures ==>
        e.captures[id] == if id in retained then RetainedRow(db.captures[id]) else db.captures[id])
    && (forall k :: k in e.compactions ==>
        e.compactions[k] == if k in released then ReleasedRow(db.compactions[k]) else db.compactions[k])
    && (forall u :: u in e.uploads ==>
        e.uploads[u] == if u.0 in released && Expires(db.uploads[u]) then ExpiredRow(db.uploads[u]) else db.uploads[u])
  }

  /** The day has revisions, all of them out by the summary cutoff, and its stream is still configured. */
  predicate DayDue(db: DB, day: Day, policy: Policy, configured: Day -> bool) {
    && configured(day) && (exists k :: k in db.compactions && k.day == day)
    && (forall k :: k in db.compactions && k.day == day ==>
        StateLaws.PublishedBy(db.compactions[k], policy.summaryCutoff))
  }

  /** Only such days are summarised, and only of a summarised day do capture rows go. */
  ghost predicate SummariesDue(db: DB, e: DB, policy: Policy, configured: Day -> bool) {
    && (forall day :: day in db.summaries ==> day in e.summaries && e.summaries[day] == db.summaries[day])
    && (forall day :: day in e.summaries && day !in db.summaries ==> DayDue(db, day, policy, configured))
    && (forall id :: id in db.captures && id !in e.captures ==>
        db.captures[id].day in e.summaries && db.captures[id].day !in db.summaries)
  }

  /** Everything that is due was done; a due day waits only for captures that are not. */
  ghost predicate AllDone(db: DB, e: DB, policy: Policy, configured: Day -> bool, retained: set<string>,
                          released: set<Revision>) {
    && (forall id :: id in db.captures && db.captures[id].rawPath.Live? && OutBy(db, id, policy.rawCutoff) ==>
        id in retained)
    && (forall k :: ReleaseDue(db, k, policy) ==> k in released)
    && (forall day :: DayDue(db, day, policy, configured) ==> day in e.summaries || KeepsLive(db, retained, day))
  }

  predicate ReleaseDue(db: DB, k: Revision, policy: Policy) {
    && k in db.compactions && db.compactions[k].manifestPath != ""
    && StateLaws.PublishedBy(db.compactions[k], policy.parquetCutoff)
  }

  predicate KeepsLive(db: DB, retained: set<string>, day: Day) {
    exists id :: id in db.captures && id !in retained && db.captures[id].day == day && db.captures[id].rawPath.Live?
  }

  lemma CandidatesDue(db: DB, policy: Policy, retained: set<string>, released: set<Revision>)
    requires retained <= RawCandidates(db, policy.rawCutoff)
    requires released <= ParquetCandidates(db, policy.parquetCutoff)
    ensures MarksDue(db, policy, retained, released)
  {
    forall id | id in retained ensures OutBy(db, id, policy.rawCutoff) {
      CandidateOut(db, id, policy.rawCutoff);
    }
  }

  lemma CandidateOut(db: DB, id: string, cutoff: int)
    ensures RawCandidate(db, id, cutoff) <==>
      id in db.captures && db.captures[id].rawPath.Live? && OutBy(db, id, cutoff)
  {
    if exists i :: i in db.inputs && i.1 == id && i.0 in db.compactions {
      var i :| i in db.inputs && i.1 == id && i.0 in db.compactions;
      assert (i.0, id) in db.inputs;
    }
    assert forall i :: i in db.inputs && i.1 == id ==> i == (i.0, id);
    assert forall k: Revision :: (k, id).1 == id && (k, id).0 == k;
  }

  lemma DisposableDue(db: DB, policy: Policy, before: map<string, nat>, after: map<string, nat>)
    requires forall p :: p in before && p !in after ==> p != "" && Disposable(db, policy, p)
    ensures FilesDue(db, policy, before, after)
  {
    forall p | p in before && p !in after
      ensures (exists id :: FileOf(db, id, p) && OutBy(db, id, policy.rawCutoff))
           || (exists k :: ArtifactOf(db, k, p) && StateLaws.PublishedBy(db.compactions[k], policy.parquetCutoff))
    {
      OneDue(db, policy, p);
    }
  }

  lemma OneDue(db: DB, policy: Policy, p: string)
    requires p != "" && Disposable(db, policy, p)
    ensures (exists id :: FileOf(db, id, p) && OutBy(db, id, policy.rawCutoff))
         || (exists k :: ArtifactOf(db, k, p) && StateLaws.PublishedBy(db.compactions[k], policy.parquetCutoff))
  {
    if CapturePath(db, RawCandidates(db, policy.rawCutoff), p) {
      var id :| id in RawCandidates(db, policy.rawCutoff)
                && (p == PathOf(db.captures[id].rawPath) || p == PathOf(db.captures[id].sidecarPath));
      CandidateOut(db, id, policy.rawCutoff);
      assert FileOf(db, id, p);
    } else {
      var k :| k in ParquetCandidates(db, policy.parquetCutoff)
               && (p == db.compactions[k].dataPath || p == db.compactions[k].manifestPath);
      assert ArtifactOf(db, k, p);
    }
  }

  lemma AvoidedGone(db: DB, retained: set<string>, released: set<Revision>, files: map<string, nat>)
    requires CapturesAvoid(db, retained, files.Keys) && RevisionsAvoid(db, released, files.Keys)
    ensures FilesGone(db, retained, released, files)
  {
    forall id, p | id in retained && FileOf(db, id, p) && p != "" ensures p !in files {
      assert CapturePath(db, retained, p);
    }
    forall k, p | k in released && ArtifactOf(db, k, p) && p != "" ensures p !in files {
      assert RevisionPath(db, released, p);
    }
  }

  lemma SameFiles(db: DB, files: map<string, nat>, ids: set<string>)
    ensures FilesOf(db, files, ids) == set p | p in files && p != "" && CapturePath(db, ids, p)
  {
    forall p | p != "" ensures CapturePath(db, ids, p) <==> exists id :: id in ids && FileOf(db, id, p) {
      if CapturePath(db, ids, p) {
        var id :| id in ids && id in db.captures
          && (p == PathOf(db.captures[id].rawPath) || p == PathOf(db.captures[id].sidecarPath));
        assert FileOf(db, id, p);
      }
    }
  }

  lemma MarksFollow(db: DB, retained: set<string>, released: set<Revision>)
    ensures RowsFollow(db, ReleaseAll(RetainAll(db, retained), released), retained, released)
  {
  }

  lemma SummarisedRows(db: DB, m: DB, e: DB, retained: set<string>, released: set<Revision>, days: seq<Day>)
    requires RowsFollow(db, m, retained, released) && StateLaws.OnlySummarised(m, e, days)
    ensures RowsFollow(db, e, retained, released)
  {
  }

  /** The tables after the marks and any summary pass over due days. */
  lemma MarkedThenSummarised(db: DB, e: DB, policy: Policy, configured: Day -> bool, retained: set<string>,
                             released: set<Revision>, days: seq<Day>)
    requires StateLaws.OnlySummarised(ReleaseAll(RetainAll(db, retained), released), e, days)
    requires forall d :: d in days ==>
      d in SummaryCandidates(ReleaseAll(RetainAll(db, retained), released), policy.summaryCutoff) && configured(d)
    ensures RowsFollow(db, e, retained, released) && SummariesDue(db, e, policy, configured)
  {
    forall d | d in days ensures DayDue(db, d, policy, configured) {
      DueBefore(db, policy, configured, retained, released, d);
    }
    MarksFollow(db, retained, released);
    SummarisedRows(db, ReleaseAll(RetainAll(db, retained), released), e, retained, released, days);
  }

  /** Marking moves no publication. */
  lemma DueBefore(db: DB, policy: Policy, configured: Day -> bool, retained: set<string>, released: set<Revision>,
                  d: Day)
    ensures d in SummaryCandidates(ReleaseAll(RetainAll(db, retained), released), policy.summaryCutoff) && configured(d)
      <==> DayDue(db, d, policy, configured) && d !in db.summaries
  {
    var m := ReleaseAll(RetainAll(db, retained), released);
    assert m.compactions.Keys == db.compactions.Keys;
    assert forall k :: k in db.compactions ==> m.compactions[k].publishedAt == db.compactions[k].publishedAt;
    if DayDue(db, d, policy, configured) {
      var k :| k in db.compactions && k.day == d;
      assert k in m.compactions;
    }
  }

  lemma DoneAll(db: DB, e: DB, policy: Policy, configured: Day -> bool, retained: set<string>,
                released: set<Revision>, days: seq<Day>)
    requires retained == RawCandidates(db, policy.rawCutoff) && released == ParquetCandidates(db, policy.parquetCutoff)
    requires StateLaws.OnlySummarised(ReleaseAll(RetainAll(db, retained), released), e, days)
    requires forall d :: d in days <==>
      d in SummaryCandidates(ReleaseAll(RetainAll(db, retained), released), policy.summaryCutoff) && configured(d)
    requires forall d :: d in days ==>
      d in e.summaries || StateLaws.HasLive(ReleaseAll(RetainAll(db, retained), released), d)
    ensures AllDone(db, e, policy, configured, retained, released)
  {
    forall id | id in db.captures && db.captures[id].rawPath.Live? && OutBy(db, id, policy.rawCutoff)
      ensures id in retained
    {
      CandidateOut(db, id, policy.rawCutoff);
    }
    forall d | DayDue(db, d, policy, configured) && d !in e.summaries ensures KeepsLive(db, retained, d) {
      DueBefore(db, policy, configured, retained, released, d);
      StillLive(db, retained, released, d);
    }
  }

  lemma StillLive(db: DB, retained: set<string>, released: set<Revision>, d: Day)
    requires StateLaws.HasLive(ReleaseAll(RetainAll(db, retained), released), d)
    ensures KeepsLive(db, retained, d)
  {
    var m := ReleaseAll(RetainAll(db, retained), released);
    var id :| id in m.captures && m.captures[id].day == d && m.captures[id].rawPath.Live?;
    assert id in db.captures && id !in retained;
  }

  /** The files a cleanup may remove. */
  predicate Disposable(db: DB, policy: Policy, path: string) {
    || CapturePath(db, RawCandidates(db, policy.rawCutoff), path)
    || RevisionPath(db, ParquetCandidates(db, policy.parquetCutoff), path)
  }

  /** From `before` to `after` only `count` files of `bytes` bytes were removed. */
  ghost predicate Freed(before: map<string, nat>, after: map<string, nat>, count: nat, bytes: nat) {
    && after.Keys <= before.Keys && (forall p :: p in after ==> after[p] == before[p])
    && Total(before) == Total(after) + bytes && |before| == |after| + count
  }

  /** At least `bytes` bytes of files were removed. */
  ghost predicate Shrunk(before: map<string, nat>, after: map<string, nat>, bytes: nat) {
    after.Keys <= before.Keys && (forall p :: p in after ==> after[p] == before[p])
      && Total(before) >= Total(after) + bytes
  }

  lemma FreedTwice(a: map<string, nat>, b: map<string, nat>, c: map<string, nat>, m: nat, x: nat, n: nat, y: nat)
    requires Freed(a, b, m, x) && Freed(b, c, n, y)
    ensures Freed(a, c, m + n, x + y)
  {
  }

  /** What disappeared belonged to the captures, or to the revisions. */
  predicate CapturesOnly(before: map<string, nat>, after: map<string, nat>, db: DB, ids: set<string>) {
    forall p :: p in before && p !in after ==> p != "" && CapturePath(db, ids, p)
  }

  predicate RevisionsOnly(before: map<string, nat>, after: map<string, nat>, db: DB, ks: set<Revision>) {
    forall p :: p in before && p !in after ==> p != "" && RevisionPath(db, ks, p)
  }

  lemma CapturesOnlyTwice(a: map<string, nat>, b: map<string, nat>, c: map<string, nat>, db: DB, ids: set<string>,
                          id: string)
    requires CapturesOnly(a, b, db, ids) && CapturesOnly(b, c, db, {id}) && id in ids
    ensures CapturesOnly(a, c, db, ids)
  {
  }

  lemma RevisionsOnlyTwice(a: map<string, nat>, b: map<string, nat>, c: map<string, nat>, db: DB, ks: set<Revision>,
                           k: Revision)
    requires RevisionsOnly(a, b, db, ks) && RevisionsOnly(b, c, db, {k}) && k in ks
    ensures RevisionsOnly(a, c, db, ks)
  {
  }

  /** None of the captures', or revisions', local paths is in `paths`. */
  ghost predicate CapturesAvoid(db: DB, ids: set<string>, paths: set<string>) {
    forall p :: p != "" && CapturePath(db, ids, p) ==> p !in paths
  }

  ghost predicate RevisionsAvoid(db: DB, ks: set<Revision>, paths: set<string>) {
    forall p :: p != "" && RevisionPath(db, ks, p) ==> p !in paths
  }

  lemma CapturesAvoidMore(db: DB, ids: set<string>, id: string, paths: set<string>)
    ensures CapturesAvoid(db, ids + {id}, paths) <==> CapturesAvoid(db, ids, paths) && CapturesAvoid(db, {id}, paths)
  {
    assert forall p :: CapturePath(db, ids + {id}, p) <==> CapturePath(db, ids, p) || CapturePath(db, {id}, p);
  }

  lemma RevisionsAvoidMore(db: DB, ks: set<Revision>, k: Revision, paths: set<string>)
    ensures RevisionsAvoid(db, ks + {k}, paths) <==> RevisionsAvoid(db, ks, paths) && RevisionsAvoid(db, {k}, paths)
  {
    assert forall p :: RevisionPath(db, ks + {k}, p) <==> RevisionPath(db, ks, p) || RevisionPath(db, {k}, p);
  }

  lemma AvoidsFewer(db: DB, ids: set<string>, ks: set<Revision>, fewer: set<string>, paths: set<string>)
    requires fewer <= paths
    ensures CapturesAvoid(db, ids, paths) ==> CapturesAvoid(db, ids, fewer)
    ensures RevisionsAvoid(db, ks, paths) ==> RevisionsAvoid(db, ks, fewer)
  {
  }

  lemma OneCapture(db: DB, ids: set<string>, id: string, paths: set<string>)
    requires id in ids && CapturesAvoid(db, ids, paths)
    ensures CapturesAvoid(db, {id}, paths)
  {
    assert forall p :: CapturePath(db, {id}, p) ==> CapturePath(db, ids, p);
  }

  lemma OneRevision(db: DB, ks: set<Revision>, k: Revision, paths: set<string>)
    requires k in ks && RevisionsAvoid(db, ks, paths)
    ensures RevisionsAvoid(db, {k}, paths)
  {
    assert forall p :: RevisionPath(db, {k}, p) ==> RevisionPath(db, ks, p);
  }

  lemma MoveOne<T>(all: set<T>, left: set<T>, x: T)
    requires left <= all && x in left
    ensures all - (left - {x}) == (all - left) + {x}
  {
  }

  // ---- the program ----

  class Retention {
    const store: StateStore.Store
    const stuck: set<string>
    var files: map<string, nat>

    constructor (store: StateStore.Store, files: map<string, nat>, stuck: set<string>)
      ensures this.store == store && this.files == files && this.stuck == stuck
    {
      this.store, this.files, this.stuck := store, files, stuck;
    }

    /** removeRegular; `stuck` names what is no regular file or cannot be removed. */
    method RemoveRegular(path: string) returns (removed: bool, size: nat, ok: bool)
      modifies this`files
      ensures ok <==> path !in stuck
      ensures removed <==> ok && path in old(files)
      ensures files == if removed then old(files) - {path} else old(files)
      ensures size == if removed then old(files)[path] else 0
    {
      if path in stuck {
        return false, 0, false;
      }
      if path !in files {
        return false, 0, true;
      }
      size := files[path];
      files := files - {path};
      return true, size, true;
    }

    /** Both files of one candidate, the second only when the first did not fail. */
    method RemoveBoth(first: string, second: string) returns (deleted: nat, bytes: nat, ok: bool)
      modifies this`files
      ensures Freed(old(files), files, deleted, bytes)
      ensures forall p :: p in old(files) && p !in files ==> p != "" && (p == first || p == second)
      ensures ok ==> (first != "" ==> first !in files) && (second != "" ==> second !in files)
      ensures ok <==> (first == "" || first !in stuck) && (second == "" || second !in stuck)
    {
      deleted, bytes, ok := RemoveNamed(first);
      if ok {
        var more, size;
        more, size, ok := RemoveNamed(second);
        deleted, bytes := deleted + more, bytes + size;
      }
    }

    method RemoveNamed(path: string) returns (deleted: nat, bytes: nat, ok: bool)
      modifies this`files
      ensures files == if path != "" && path !in stuck then old(files) - {path} else old(files)
      ensures Freed(old(files), files, deleted, bytes)
      ensures ok <==> path == "" || path !in stuck
    {
      if path == "" {
        return 0, 0, true;
      }
      var removed;
      ghost var before := files;
      removed, bytes, ok := RemoveRegular(path);
      deleted := 0;
      if removed {
        deleted := 1;
        TotalWithout(before, path);
        assert before.Keys == files.Keys + {path};
        assert |before| == |before.Keys| && |files| == |files.Keys|;
      } else if ok {
        assert before - {path} == before;
      }
    }

    /** One raw candidate: its files, then its row. */
    method MarkCapture(id: string, ghost db: DB, ghost ids: set<string>)
      requires id in db.captures && id !in ids && store.Contents() == RetainAll(db, ids)
      modifies store
      ensures store.Contents() == RetainAll(db, ids + {id})
    {
      store.MarkCaptureRetained(id);
      RetainMore(db, ids, id);
    }

    method RetainOne(id: string, ghost db: DB, ghost ids: set<string>) returns (deleted: nat, bytes: nat, ok: bool)
      requires id in db.captures && id !in ids && store.Contents() == RetainAll(db, ids)
      modifies this`files, store
      ensures Freed(old(files), files, deleted, bytes)
      ensures CapturesOnly(old(files), files, db, {id})
      ensures ok <==> CapturesAvoid(db, {id}, stuck)
      ensures ok ==> CapturesAvoid(db, {id}, files.Keys)
      ensures store.Contents() == if ok then RetainAll(db, ids + {id}) else RetainAll(db, ids)
    {
      var c := store.captures[id];
      assert c == db.captures[id];
      deleted, bytes, ok := RemoveBoth(PathOf(c.rawPath), PathOf(c.sidecarPath));
      assert CapturePath(db, {id}, PathOf(c.rawPath)) && CapturePath(db, {id}, PathOf(c.sidecarPath));
      if ok {
        MarkCapture(id, db, ids);
      }
    }

    method RetainNext(id: string, ghost db: DB, ghost before: map<string, nat>, ghost candidates: set<string>,
                      ghost done: set<string>,
                      ghost count: nat, ghost bytes: nat) returns (deleted: nat, freed: nat, ok: bool)
      requires id in candidates && id in db.captures && id !in done && store.Contents() == RetainAll(db, done)
      requires Freed(before, files, count, bytes) && CapturesOnly(before, files, db, candidates)
      modifies this`files, store
      requires CapturesAvoid(db, done, files.Keys)
      ensures Freed(before, files, count + deleted, bytes + freed) && CapturesOnly(before, files, db, candidates)
      ensures ok <==> CapturesAvoid(db, {id}, stuck)
      ensures CapturesAvoid(db, if ok then done + {id} else done, files.Keys)
      ensures store.Contents() == if ok then RetainAll(db, done + {id}) else RetainAll(db, done)
    {
      ghost var between := files;
      deleted, freed, ok := RetainOne(id, db, done);
      FreedTwice(before, between, files, count, bytes, deleted, freed);
      CapturesOnlyTwice(before, between, files, db, candidates, id);
      AvoidsFewer(db, done, {}, files.Keys, between.Keys);
      CapturesAvoidMore(db, done, id, files.Keys);
    }

    /** The raw pass. A capture whose removal failed is neither marked nor counted; its first file may be gone. */
    method RawPass(candidates: set<string>) returns (count: nat, bytes: nat, ok: bool, ghost done: set<string>)
      requires candidates <= store.captures.Keys
      modifies this`files, store
      ensures Shrunk(old(files), files, bytes) && (ok ==> Freed(old(files), files, count, bytes))
      ensures CapturesOnly(old(files), files, old(store.Contents()), candidates)
      ensures done <= candidates && store.Contents() == RetainAll(old(store.Contents()), done)
        && (ok ==> done == candidates)
      ensures CapturesAvoid(old(store.Contents()), done, files.Keys)
      ensures ok <==> CapturesAvoid(old(store.Contents()), candidates, stuck)
    {
      count, bytes, ok := 0, 0, true;
      ghost var db, before := store.Contents(), files;
      var left := candidates;
      done := {};
      assert RetainAll(db, done) == db;
      while left != {}
        invariant left <= candidates && done == candidates - left && candidates <= db.captures.Keys
        invariant store.Contents() == RetainAll(db, done)
        invariant Freed(before, files, count, bytes)
        invariant CapturesOnly(before, files, db, candidates)
        invariant CapturesAvoid(db, done, files.Keys) && CapturesAvoid(db, done, stuck)
        decreases |left|
      {
        var id :| id in left;
        var deleted, freed;
        deleted, freed, ok := RetainNext(id, db, before, candidates, done, count, bytes);
        CapturesAvoidMore(db, done, id, stuck);
        if !ok {
          if CapturesAvoid(db, candidates, stuck) { OneCapture(db, candidates, id, stuck); }
          return;
        }
        MoveOne(candidates, left, id);
        left, done := left - {id}, done + {id};
        count, bytes := count + deleted, bytes + freed;
      }
      ok := true;
    }

    /** One Parquet candidate: its data and manifest, then its row. */
    method MarkRevision(k: Revision, ghost db: DB, ghost ks: set<Revision>)
      requires k in db.compactions && k !in ks && store.Contents() == ReleaseAll(db, ks)
      modifies store
      ensures store.Contents() == ReleaseAll(db, ks + {k})
    {
      store.MarkParquetRetained(k);
      ReleaseMore(db, ks, k);
    }

    method ReleaseOne(k: Revision, ghost db: DB, ghost ks: set<Revision>) returns (deleted: nat, bytes: nat, ok: bool)
      requires k in db.compactions && k !in ks && store.Contents() == ReleaseAll(db, ks)
      modifies this`files, store
      ensures Freed(old(files), files, deleted, bytes)
      ensures RevisionsOnly(old(files), files, db, {k})
      ensures ok <==> RevisionsAvoid(db, {k}, stuck)
      ensures ok ==> RevisionsAvoid(db, {k}, files.Keys)
      ensures store.Contents() == if ok then ReleaseAll(db, ks + {k}) else ReleaseAll(db, ks)
    {
      var row := store.compactions[k];
      assert row == db.compactions[k];
      deleted, bytes, ok := RemoveBoth(row.dataPath, row.manifestPath);
      assert RevisionPath(db, {k}, row.dataPath) && RevisionPath(db, {k}, row.manifestPath);
      if ok {
        MarkRevision(k, db, ks);
      }
    }

    method ReleaseNext(k: Revision, ghost db: DB, ghost before: map<string, nat>, ghost candidates: set<Revision>,
                       ghost done: set<Revision>,
                       ghost count: nat, ghost bytes: nat) returns (deleted: nat, freed: nat, ok: bool)
      requires k in candidates && k in db.compactions && k !in done && store.Contents() == ReleaseAll(db, done)
      requires Freed(before, files, count, bytes) && RevisionsOnly(before, files, db, candidates)
      modifies this`files, store
      requires RevisionsAvoid(db, done, files.Keys)
      ensures Freed(before, files, count + deleted, bytes + freed) && RevisionsOnly(before, files, db, candidates)
      ensures ok <==> RevisionsAvoid(db, {k}, stuck)
      ensures RevisionsAvoid(db, if ok then done + {k} else done, files.Keys)
      ensures store.Contents() == if ok then ReleaseAll(db, done + {k}) else ReleaseAll(db, done)
    {
      ghost var between := files;
      deleted, freed, ok := ReleaseOne(k, db, done);
      FreedTwice(before, between, files, count, bytes, deleted, freed);
      RevisionsOnlyTwice(before, between, files, db, candidates, k);
      AvoidsFewer(db, {}, done, files.Keys, between.Keys);
      RevisionsAvoidMore(db, done, k, files.Keys);
    }

    method ParquetPass(candidates: set<Revision>) returns (count: nat, bytes: nat, ok: bool, ghost done: set<Revision>)
      requires candidates <= store.compactions.Keys
      modifies this`files, store
      ensures Shrunk(old(files), files, bytes) && (ok ==> Freed(old(files), files, count, bytes))
      ensures RevisionsOnly(old(files), files, old(store.Contents()), candidates)
      ensures done <= candidates && store.Contents() == ReleaseAll(old(store.Contents()), done)
        && (ok ==> done == candidates)
      ensures RevisionsAvoid(old(store.Contents()), done, files.Keys)
      ensures ok <==> RevisionsAvoid(old(store.Contents()), candidates, stuck)
    {
      count, bytes, ok := 0, 0, true;
      ghost var db, before := store.Contents(), files;
      var left := candidates;
      done := {};
      assert ReleaseAll(db, done) == db;
      while left != {}
        invariant left <= candidates && done == candidates - left && candidates <= db.compactions.Keys
        invariant store.Contents() == ReleaseAll(db, done)
        invariant Freed(before, files, count, bytes)
        invariant RevisionsOnly(before, files, db, candidates)
        invariant RevisionsAvoid(db, done, files.Keys) && RevisionsAvoid(db, done, stuck)
        decreases |left|
      {
        var k :| k in left;
        var deleted, freed;
        deleted, freed, ok := ReleaseNext(k, db, before, candidates, done, count, bytes);
        RevisionsAvoidMore(db, done, k, stuck);
        if !ok {
          if RevisionsAvoid(db, candidates, stuck) { OneRevision(db, candidates, k, stuck); }
          return;
        }
        MoveOne(candidates, left, k);
        left, done := left - {k}, done + {k};
        count, bytes := count + deleted, bytes + freed;
      }
      ok := true;
    }

    /** The summary pass over the candidates whose stream is still configured, in some order, up to the first error. */
    method SummaryPass(days: seq<Day>, bounds: Day -> (int, int), now: int) returns (count: nat, ok: bool)
      modifies store
      ensures (store.Contents(), ok) == StateLaws.SummaryPass(old(store.Contents()), days, bounds, now)
      ensures |store.summaries| == |old(store.summaries)| + count
    {
      count, ok := 0, true;
      for n := 0 to |days|
        invariant |store.summaries| == |old(store.summaries)| + count
        invariant StateLaws.SummaryPass(store.Contents(), days[n..], bounds, now)
               == StateLaws.SummaryPass(old(store.Contents()), days, bounds, now)
      {
        assert days[n..][0] == days[n] && days[n..][1..] == days[n+1..];
        var done;
        done, ok := store.SummarizeDay(days[n], bounds(days[n]).0, bounds(days[n]).1, now);
        if !ok {
          return;
        }
        if done {
          count := count + 1;
        }
      }
      ok := true;
    }

    /** Cleanup. On success the reported bytes and counts are exactly what left the disk; an error reports no more than
        was freed. Whatever happened: a capture is marked retained, and a file of it removed, only when some revision
        lists it and each one that does was published by the raw cutoff; a revision is released, and a file of it
        removed, only when it was published by the Parquet cutoff; a day is summarised only when its stream is
        configured and all its revisions were published by the summary cutoff. No file is left of what is marked. It
        fails exactly when a candidate's file cannot be removed or the summary pass fails; when it does not, all that is
        due was done. */
    method Cleanup(policy: Policy, configured: Day -> bool, bounds: Day -> (int, int), now: int)
      returns (result: CleanupResult, ok: bool, ghost retained: set<string>, ghost released: set<Revision>)
      modifies this`files, store
      ensures !policy.hasRequired && !policy.allowLocalOnlyCleanup ==>
        ok && result == CleanupResult(0, 0, 0, 0) && files == old(files) && store.Contents() == old(store.Contents())
      ensures Shrunk(old(files), files, result.bytes)
      ensures ok ==> Freed(old(files), files, result.rawFiles + result.parquetFiles, result.bytes)
      ensures forall p :: p in old(files) && p !in files ==> Disposable(old(store.Contents()), policy, p)
      ensures CapturesAvoid(old(store.Contents()), retained, files.Keys)
      ensures RevisionsAvoid(old(store.Contents()), released, files.Keys)
      ensures policy.hasRequired || policy.allowLocalOnlyCleanup ==>
        var db, all := old(store.Contents()), Removable(old(store.Contents()), policy, stuck);
        && retained <= RawCandidates(db, policy.rawCutoff) && released <= ParquetCandidates(db, policy.parquetCutoff)
        && (all ==>
            retained == RawCandidates(db, policy.rawCutoff) && released == ParquetCandidates(db, policy.parquetCutoff))
        && Summarises(ReleaseAll(RetainAll(db, retained), released), store.Contents(), all, ok, policy, configured,
           bounds, now)
      ensures MarksDue(old(store.Contents()), policy, retained, released)
      ensures FilesDue(old(store.Contents()), policy, old(files), files)
      ensures FilesGone(old(store.Contents()), retained, released, files)
      ensures RowsFollow(old(store.Contents()), store.Contents(), retained, released)
      ensures SummariesDue(old(store.Contents()), store.Contents(), policy, configured)
      ensures ok && (policy.hasRequired || policy.allowLocalOnlyCleanup) ==>
        AllDone(old(store.Contents()), store.Contents(), policy, configured, retained, released)
      ensures ok ==> result.rawFiles == |FilesOf(old(store.Contents()), old(files), retained)|
      ensures |store.summaries| >= |old(store.summaries)| + result.summarizedDays
      ensures ok ==> |store.summaries| == |old(store.summaries)| + result.summarizedDays
    {
      result, ok, retained, released := CleanupResult(0, 0, 0, 0), true, {}, {};
      ghost var db, first := store.Contents(), files;
      NothingMarked(db, policy, configured, files);
      if !policy.hasRequired && !policy.allowLocalOnlyCleanup {
        return;
      }
      result, ok, retained, released := RemoveFiles(policy);
      FilesCleaned(db, policy, first, files, retained, released);
      RowsMarked(db, policy, configured, retained, released);
      if !ok {
        return;
      }
      var summarised;
      ghost var days;
      summarised, ok, days := SummariseDue(policy, configured, bounds, now);
      result := result.(summarizedDays := summarised);
      RowsCleaned(db, store.Contents(), ok, policy, configured, bounds, now, retained, released, days);
    }

    /** The last pass: the due days whose stream is still configured, in some order. */
    method SummariseDue(policy: Policy, configured: Day -> bool, bounds: Day -> (int, int), now: int)
      returns (count: nat, ok: bool, ghost days: seq<Day>)
      modifies store
      ensures Distinct(days) && forall d :: d in days <==>
        d in SummaryCandidates(old(store.Contents()), policy.summaryCutoff) && configured(d)
      ensures (store.Contents(), ok) == StateLaws.SummaryPass(old(store.Contents()), days, bounds, now)
      ensures |store.summaries| == |old(store.summaries)| + count
    {
      var candidates := SummaryCandidates(
        DB(store.ticks, store.captures, store.compactions, store.inputs, store.uploads, store.summaries),
          policy.summaryCutoff);
      var list := Enumerate(set d | d in candidates && configured(d));
      days := list;
      count, ok := SummaryPass(list, bounds, now);
    }

    /** The first two passes. */
    method RemoveFiles(policy: Policy) returns (result: CleanupResult, ok: bool, ghost retained: set<string>,
                       ghost released: set<Revision>)
      modifies this`files, store
      ensures Shrunk(old(files), files, result.bytes)
      ensures ok ==> Freed(old(files), files, result.rawFiles + result.parquetFiles, result.bytes)
      ensures forall p :: p in old(files) && p !in files ==> p != "" && Disposable(old(store.Contents()), policy, p)
      ensures var db := old(store.Contents());
        && retained <= RawCandidates(db, policy.rawCutoff) && released <= ParquetCandidates(db, policy.parquetCutoff)
        && (ok ==>
            retained == RawCandidates(db, policy.rawCutoff) && released == ParquetCandidates(db, policy.parquetCutoff))
        && CapturesAvoid(db, retained, files.Keys) && RevisionsAvoid(db, released, files.Keys)
        && store.Contents() == ReleaseAll(RetainAll(db, retained), released)
      ensures result.summarizedDays == 0
      ensures ok ==>
        result.rawFiles == |set p | p in old(files) && p != "" && CapturePath(old(store.Contents()), retained, p)|
      ensures ok <==> Removable(old(store.Contents()), policy, stuck)
    {
      result, released := CleanupResult(0, 0, 0, 0), {};
      ghost var db, first := store.Contents(), files;
      var raw := RawCandidates(
        DB(store.ticks, store.captures, store.compactions, store.inputs, store.uploads, store.summaries),
          policy.rawCutoff);
      var count, bytes;
      count, bytes, ok, retained := RawPass(raw);
      result := result.(rawFiles := count, bytes := bytes);
      ghost var marked, between := store.Contents(), files;
      ReleaseNone(marked);
      if !ok {
        return;
      }
      AllGone(first, between, db, retained, count);
      var parquet := ParquetCandidates(
        DB(store.ticks, store.captures, store.compactions, store.inputs, store.uploads, store.summaries),
          policy.parquetCutoff);
      assert parquet == ParquetCandidates(db, policy.parquetCutoff);
      count, bytes, ok, released := ParquetPass(parquet);
      result := result.(parquetFiles := count, bytes := result.bytes + bytes);
      SameRevisionPaths(db, marked);
      AvoidsFewer(db, retained, {}, files.Keys, between.Keys);
      if ok { FreedTwice(first, between, files, result.rawFiles, result.bytes - bytes, count, bytes); }
    }

    method Enumerate(days: set<Day>) returns (list: seq<Day>)
      ensures Distinct(list) && forall d :: d in list <==> d in days
    {
      list := [];
      var left := days;
      while left != {}
        invariant left <= days && Distinct(list) && forall d :: d in list <==> d in days && d !in left
        decreases |left|
      {
        var d :| d in left;
        list, left := list + [d], left - {d};
      }
    }
  }

  lemma FilesCleaned(db: DB, policy: Policy, before: map<string, nat>, after: map<string, nat>, retained: set<string>,
                     released: set<Revision>)
    requires retained <= RawCandidates(db, policy.rawCutoff)
    requires released <= ParquetCandidates(db, policy.parquetCutoff)
    requires forall p :: p in before && p !in after ==> p != "" && Disposable(db, policy, p)
    requires CapturesAvoid(db, retained, after.Keys) && RevisionsAvoid(db, released, after.Keys)
    ensures MarksDue(db, policy, retained, released) && FilesDue(db, policy, before, after)
    ensures FilesGone(db, retained, released, after)
    ensures FilesOf(db, before, retained) == set p | p in before && p != "" && CapturePath(db, retained, p)
  {
    CandidatesDue(db, policy, retained, released);
    DisposableDue(db, policy, before, after);
    AvoidedGone(db, retained, released, after);
    SameFiles(db, before, retained);
  }

  lemma RowsMarked(db: DB, policy: Policy, configured: Day -> bool, retained: set<string>, released: set<Revision>)
    ensures RowsFollow(db, ReleaseAll(RetainAll(db, retained), released), retained, released)
    ensures SummariesDue(db, ReleaseAll(RetainAll(db, retained), released), policy, configured)
  {
  }

  lemma RowsCleaned(db: DB, e: DB, ok: bool, policy: Policy, configured: Day -> bool, bounds: Day -> (int, int),
                    now: int, retained: set<string>, released: set<Revision>, days: seq<Day>)
    requires retained == RawCandidates(db, policy.rawCutoff) && released == ParquetCandidates(db, policy.parquetCutoff)
    requires forall d :: d in days <==>
      d in SummaryCandidates(ReleaseAll(RetainAll(db, retained), released), policy.summaryCutoff) && configured(d)
    requires (e, ok) == StateLaws.SummaryPass(ReleaseAll(RetainAll(db, retained), released), days, bounds, now)
    ensures RowsFollow(db, e, retained, released) && SummariesDue(db, e, policy, configured)
    ensures ok ==> AllDone(db, e, policy, configured, retained, released)
  {
    StateLaws.PassSummarises(ReleaseAll(RetainAll(db, retained), released), days, bounds, now);
    MarkedThenSummarised(db, e, policy, configured, retained, released, days);
    if ok { DoneAll(db, e, policy, configured, retained, released, days); }
  }

  lemma NothingMarked(db: DB, policy: Policy, configured: Day -> bool, files: map<string, nat>)
    ensures MarksDue(db, policy, {}, {}) && FilesDue(db, policy, files, files) && FilesGone(db, {}, {}, files)
    ensures RowsFollow(db, db, {}, {}) && SummariesDue(db, db, policy, configured)
    ensures FilesOf(db, files, {}) == {}
  {
  }

  /** When every file of the captures is gone and no other, they are as many as were counted. */
  lemma AllGone(before: map<string, nat>, after: map<string, nat>, db: DB, ids: set<string>, count: nat)
    requires after.Keys <= before.Keys && |before| == |after| + count
    requires CapturesOnly(before, after, db, ids) && CapturesAvoid(db, ids, after.Keys)
    ensures count == |set p | p in before && p != "" && CapturePath(db, ids, p)|
  {
    var gone := set p | p in before && p != "" && CapturePath(db, ids, p);
    assert forall p :: p in gone ==> p !in after.Keys;
    assert forall p :: p in before && p !in after ==> p in gone;
    Counted(before, after, gone, count);
  }

  lemma Counted(before: map<string, nat>, after: map<string, nat>, gone: set<string>, count: nat)
    requires |before| == |after| + count && after.Keys <= before.Keys && gone <= before.Keys
    requires forall p :: p in before ==> (p in gone <==> p !in after)
    ensures count == |gone|
  {
    assert before.Keys == after.Keys + gone;
    assert |before| == |before.Keys| && |after| == |after.Keys|;
  }

  /** No candidate's file is stuck. */
  ghost predicate Removable(db: DB, policy: Policy, stuck: set<string>) {
    && CapturesAvoid(db, RawCandidates(db, policy.rawCutoff), stuck)
    && RevisionsAvoid(db, ParquetCandidates(db, policy.parquetCutoff), stuck)
  }

  /** The last pass runs, over the due days of configured streams, exactly when the first two were completed. */
  ghost predicate Summarises(db: DB, after: DB, all: bool, ok: bool, policy: Policy, configured: Day -> bool,
                             bounds: Day -> (int, int),
                             now: int)
  {
    if !all then !ok && after == db
    else exists days ::
      && Distinct(days) && (forall d :: d in days <==>
         d in SummaryCandidates(db, policy.summaryCutoff) && configured(d))
      && (after, ok) == StateLaws.SummaryPass(db, days, bounds, now)
  }

  lemma ReleaseNone(db: DB)
    ensures ReleaseAll(db, {}) == db
  {
    assert ReleaseAll(db, {}).uploads == db.uploads && ReleaseAll(db, {}).compactions == db.compactions;
  }

  lemma SameRevisionPaths(db: DB, e: DB)
    requires e.compactions == db.compactions
    ensures forall ks, p :: RevisionPath(e, ks, p) <==> RevisionPath(db, ks, p)
    ensures forall ks, paths :: RevisionsAvoid(e, ks, paths) <==> RevisionsAvoid(db, ks, paths)
  {
    forall ks, p ensures RevisionPath(e, ks, p) <==> RevisionPath(db, ks, p) {
    }
  }

  predicate RequiredSettled(db: DB, k: Revision) {
    forall u :: u in db.uploads && u.0 == k && db.uploads[u].required ==> Settled(db.uploads[u].status)
  }

  /** A file leaves the disk only when its capture or its revision is released: each required upload of every revision
      concerned is verified or retired. */
  lemma DisposableIsReleased(db: DB, policy: Policy, path: string)
    requires StateLaws.ForeignKeys(db) && StateLaws.GateExact(db) && Disposable(db, policy, path)
    ensures (exists id :: StateLaws.Released(db, id) && CapturePath(db, {id}, path))
         || (exists k :: Published(db, k) && RequiredSettled(db, k) && RevisionPath(db, {k}, path))
  {
    if CapturePath(db, RawCandidates(db, policy.rawCutoff), path) {
      var id :| id in RawCandidates(db, policy.rawCutoff)
                && (path == PathOf(db.captures[id].rawPath) || path == PathOf(db.captures[id].sidecarPath));
      StateLaws.CandidateIsReleased(db, id, policy.rawCutoff);
      assert CapturePath(db, {id}, path);
    } else {
      var k :| k in ParquetCandidates(db, policy.parquetCutoff)
               && (path == db.compactions[k].dataPath || path == db.compactions[k].manifestPath);
      forall u | u in db.uploads && u.0 == k && db.uploads[u].required ensures Settled(db.uploads[u].status) {
        assert StateLaws.HasRequired(db, k) && !PendingRequired(db.uploads, k);
      }
      assert RequiredSettled(db, k) && RevisionPath(db, {k}, path);
    }
  }
}
