/** Startup reconciliation of revision directories: rebuilding a lost database record from its manifest. */
module Reconcile {
  import opened Prelude
  import opened Artifact
  import opened Compact
  import Tallies
  import D = Destinations
  import T = Tables
  import StateLaws
  import StateStore

  datatype Verdict = Nothing | Corrupt | Adopted(db: T.DB) | Rejected

  predicate HeaderOk(m: Manifest) {
    && m.formatVersion == FORMAT_VERSION && m.revision.number >= 1
    && m.revision.day.stream.source != "" && m.revision.day.stream.stream != "" && m.revision.day.date != ""
  }

  predicate PlaceOk(dir: string, m: Manifest) {
    && dir == RevisionDirectory(m.revision) && |m.inputs| == m.capturedResponses && |m.files| <= 1
    && (|m.files| == 1 ==> IsBasename(m.files[0].relativePath))
  }

  function AdoptedInputs(inputs: seq<InputCapture>): seq<T.Input> {
    seq(|inputs|, i requires 0 <= i < |inputs| => T.Input(inputs[i].id, inputs[i].sha256))
  }

  function ExcludedIds(excluded: seq<Exclusion>): set<string> {
    set x | x in excluded :: x.id
  }

  function AdoptManifest(db: T.DB, dir: string, m: Manifest, allow: bool, now: int): Option<T.DB> {
    T.AdoptCompaction(db, m.revision, RowOf(dir, m, allow), AdoptedInputs(m.inputs), ExcludedIds(m.excluded),
                      D.QueueOf(m.destinations, m.requiredDestinations), now)
  }

  /** What the walk does with one directory. */
  function Judge(env: Env, root: Tree, db: T.DB, dir: string, allow: bool, now: int): Verdict {
    match FileAt(root, dir, MANIFEST_NAME)
    case None => Nothing
    case Some(DataFile(_)) => Corrupt
    case Some(ManifestFile(m)) =>
      if !HeaderOk(m) then Corrupt
      else if m.revision in db.compactions then
        if DirectoryOk(env, root, m.revision, db.compactions[m.revision]) then Nothing else Corrupt
      else if !PlaceOk(dir, m) || !DirectoryOk(env, root, m.revision, RowOf(dir, m, allow)) then Corrupt
      else
        var adopted := AdoptManifest(db, dir, m, allow, now);
        if adopted.None? then Rejected else Adopted(adopted.value)
  }

  datatype Progress = Progress(db: T.DB, adopted: nat, corrupt: nat, ok: bool)

  function Step(p: Progress, v: Verdict): Progress {
    match v
    case Nothing => p
    case Corrupt => p.(corrupt := p.corrupt + 1)
    case Adopted(db) => p.(db := db, adopted := p.adopted + 1)
    case Rejected => p.(ok := false)
  }

  /** The verdict on a directory given the tables. */
  type Judgement = (T.DB, string) -> Verdict

  function Judging(env: Env, root: Tree, allow: bool, now: int): Judgement {
    (db, dir) => Judge(env, root, db, dir, allow, now)
  }

  /** The walk over the directories, in order, up to the first failing adoption. */
  function Walk(judge: Judgement, db: T.DB, dirs: seq<string>): Progress {
    if |dirs| == 0 then Progress(db, 0, 0, true)
    else
      var p := Walk(judge, db, dirs[..|dirs|-1]);
      if !p.ok then p else Step(p, judge(p.db, dirs[|dirs|-1]))
  }

  // ---- the program's walk ----

  method VisitDirectory(env: Env, root: Tree, store: StateStore.Store, dir: string, allow: bool, now: int)
    returns (adopted: nat, corrupt: nat, ok: bool)
    modifies store
    ensures Progress(store.Contents(), adopted, corrupt, ok)
         == Step(Progress(old(store.Contents()), 0, 0, true), Judge(env, root, old(store.Contents()), dir, allow, now))
  {
    adopted, corrupt, ok := 0, 0, true;
    var file := FileAt(root, dir, MANIFEST_NAME);
    if file.None? {
      return;
    }
    if file.value.DataFile? || !HeaderOk(file.value.m) {
      corrupt := 1;
      return;
    }
    var m := file.value.m;
    if m.revision in store.compactions {
      var verified := VerifyDirectory(env, root, m.revision, store.compactions[m.revision]);
      if !verified {
        corrupt := 1;
      }
      return;
    }
    if !PlaceOk(dir, m) {
      corrupt := 1;
      return;
    }
    var row := RowOf(dir, m, allow);
    var verified := VerifyDirectory(env, root, m.revision, row);
    if !verified {
      corrupt := 1;
      return;
    }
    ok := store.AdoptCompaction(m.revision, row, AdoptedInputs(m.inputs), ExcludedIds(m.excluded),
                                D.QueueOf(m.destinations, m.requiredDestinations), now);
    if ok {
      adopted := 1;
    }
  }

  ghost predicate Judges(judge: Judgement, env: Env, root: Tree, allow: bool, now: int) {
    forall db, dir {:trigger Judge(env, root, db, dir, allow, now)} ::
      judge(db, dir) == Judge(env, root, db, dir, allow, now)
  }

  method VisitJudged(env: Env, root: Tree, store: StateStore.Store, dir: string, allow: bool, now: int,
                     ghost judge: Judgement)
    returns (adopted: nat, corrupt: nat, ok: bool)
    requires Judges(judge, env, root, allow, now)
    modifies store
    ensures Progress(store.Contents(), adopted, corrupt, ok)
         == Step(Progress(old(store.Contents()), 0, 0, true), judge(old(store.Contents()), dir))
  {
    adopted, corrupt, ok := VisitDirectory(env, root, store, dir, allow, now);
  }

  /** The walk's callback over every directory. */
  method VisitAll(env: Env, root: Tree, store: StateStore.Store, dirs: seq<string>, allow: bool, now: int,
                  ghost judge: Judgement)
    returns (adopted: nat, corrupt: nat, ok: bool)
    requires Judges(judge, env, root, allow, now)
    modifies store
    ensures Progress(store.Contents(), adopted, corrupt, ok) == Walk(judge, old(store.Contents()), dirs)
  {
    ghost var first := store.Contents();
    ghost var p := Progress(first, 0, 0, true);
    adopted, corrupt, ok := 0, 0, true;
    for n := 0 to |dirs|
      invariant p == Progress(store.Contents(), adopted, corrupt, true) && p == Walk(judge, first, dirs[..n])
    {
      var a, c;
      a, c, ok := VisitJudged(env, root, store, dirs[n], allow, now, judge);
      WalkStep(judge, first, dirs, n);
      StepFromZero(p, judge(p.db, dirs[n]));
      p := Step(p, judge(p.db, dirs[n]));
      adopted, corrupt := adopted + a, corrupt + c;
      if !ok {
        StoppedWalk(judge, first, dirs, n + 1);
        return;
      }
    }
    assert dirs[..|dirs|] == dirs;
    ok := true;
  }

  /** All, after the raw store was reconciled. */
  method All(env: Env, root: Tree, store: StateStore.Store, dirs: seq<string>, allow: bool, now: int)
    returns (adopted: nat, corrupt: nat, ok: bool)
    modifies store
    ensures Progress(store.Contents(), adopted, corrupt, ok)
      == Walk(Judging(env, root, allow, now), old(store.Contents()), dirs)
  {
    adopted, corrupt, ok := VisitAll(env, root, store, dirs, allow, now, Judging(env, root, allow, now));
  }

  lemma WalkStep(judge: Judgement, db: T.DB, dirs: seq<string>, n: nat)
    requires n < |dirs| && Walk(judge, db, dirs[..n]).ok
    ensures Walk(judge, db, dirs[..n+1]) == Step(Walk(judge, db, dirs[..n]),
      judge(Walk(judge, db, dirs[..n]).db, dirs[n]))
  {
    assert dirs[..n+1][..n] == dirs[..n];
  }

  lemma StepFromZero(p: Progress, v: Verdict)
    ensures var q := Step(Progress(p.db, 0, 0, p.ok), v);
      Step(p, v) == Progress(q.db, p.adopted + q.adopted, p.corrupt + q.corrupt, q.ok)
  {
  }

  lemma {:induction false} StoppedWalk(judge: Judgement, db: T.DB, dirs: seq<string>, n: nat)
    requires n <= |dirs| && !Walk(judge, db, dirs[..n]).ok
    ensures Walk(judge, db, dirs) == Walk(judge, db, dirs[..n])
    decreases |dirs|
  {
    if n == |dirs| {
      assert dirs[..n] == dirs;
    } else {
      assert dirs[..|dirs|-1][..n] == dirs[..n];
      StoppedWalk(judge, db, dirs[..|dirs|-1], n);
    }
  }

  // ---- adoption inverts a lost transaction ----

  lemma {:induction false} LinkedAll(db: T.DB, captures: seq<Capture>)
    requires forall c :: c in captures ==> c.id in db.captures
    ensures T.Linked(db, AdoptedInputs(InputsOf(captures))) == IdList(captures)
  {
    if |captures| > 0 {
      var front := captures[..|captures|-1];
      LinkedAll(db, front);
      assert AdoptedInputs(InputsOf(captures))[..|captures|-1] == AdoptedInputs(InputsOf(front));
      assert IdList(captures) == IdList(front) + [captures[|captures|-1].id];
    }
  }

  /** In every database that still holds the inputs with their recorded hashes, adopting a revision does what
      saving it would have done: the same row, the same inputs, the same queue. */
  lemma AdoptionIsSaving(db: T.DB, k: T.Revision, c: T.Compaction, captures: seq<Capture>, excluded: set<string>,
                         destinations: map<string, bool>, now: int)
    requires forall i :: i in captures ==> i.id in db.captures && db.captures[i.id].sha256 == i.sha256
    ensures T.AdoptCompaction(db, k, c, AdoptedInputs(InputsOf(captures)), excluded, destinations, now)
         == T.SaveCompaction(db, k, c, IdList(captures), destinations, now)
  {
    LinkedAll(db, captures);
    assert forall id :: id in IdList(captures) ==> id in db.captures;
    assert forall i :: i in AdoptedInputs(InputsOf(captures)) ==> T.Adoptable(db, i, excluded);
  }

  lemma {:induction false} LinkedSubset(db: T.DB, inputs: seq<T.Input>)
    requires forall i, j :: 0 <= i < j < |inputs| ==> inputs[i].id != inputs[j].id
    ensures T.Distinct(T.Linked(db, inputs))
    ensures forall id :: id in T.Linked(db, inputs) <==> id in db.captures && exists i :: i in inputs && i.id == id
  {
    if |inputs| > 0 {
      var front, last := inputs[..|inputs|-1], inputs[|inputs|-1];
      LinkedSubset(db, front);
      assert inputs == front + [last];
      forall i | i in front ensures i.id != last.id {
        var n :| 0 <= n < |front| && front[n] == i;
        assert inputs[n].id != last.id;
      }
    }
  }

  /** Adoption succeeds exactly when the revision is new and every input is present with its recorded hash, or
      absent and excluded; it then links exactly the inputs that are present. */
  lemma AdoptionExactly(db: T.DB, k: T.Revision, c: T.Compaction, inputs: seq<T.Input>, excluded: set<string>,
                        destinations: map<string, bool>, now: int)
    requires forall i, j :: 0 <= i < j < |inputs| ==> inputs[i].id != inputs[j].id
    ensures var after := T.AdoptCompaction(db, k, c, inputs, excluded, destinations, now);
      && (after.Some? <==> k !in db.compactions && forall i :: i in inputs ==>
           (i.id in db.captures && db.captures[i.id].sha256 == i.sha256) || (i.id !in db.captures && i.id in excluded))
      && (after.Some? ==> forall j, id :: (j, id) in after.value.inputs <==>
           (j, id) in db.inputs || (j == k && id in db.captures && exists i :: i in inputs && i.id == id))
  {
    LinkedSubset(db, inputs);
    forall i | i in inputs
      ensures T.Adoptable(db, i, excluded) <==>
        (i.id in db.captures && db.captures[i.id].sha256 == i.sha256) || (i.id !in db.captures && i.id in excluded)
    {
    }
  }

  // ---- what a walk leaves behind ----

  /** A directory the walk would adopt, or fail to. */
  predicate Waits(judge: Judgement, db: T.DB, dir: string) {
    judge(db, dir).Adopted? || judge(db, dir).Rejected?
  }

  /** An adoption settles its own directory, unsettles no other and only adds revisions, inputs and queue rows. */
  ghost predicate Settling(judge: Judgement) {
    && (forall db, d :: judge(db, d).Adopted? ==> Adds(db, judge(db, d).db) && !Waits(judge, judge(db, d).db, d))
    && (forall db, d, e :: judge(db, d).Adopted? && !Waits(judge, db, e) ==> !Waits(judge, judge(db, d).db, e))
  }

  lemma Instance(judge: Judgement, db: T.DB, d: string, e: string)
    requires Settling(judge) && judge(db, d).Adopted?
    ensures Adds(db, judge(db, d).db) && !Waits(judge, judge(db, d).db, d)
    ensures !Waits(judge, db, e) ==> !Waits(judge, judge(db, d).db, e)
  {
  }

  predicate Adds(db: T.DB, after: T.DB) {
    && after.captures == db.captures && after.ticks == db.ticks && after.summaries == db.summaries
    && (forall k :: k in db.compactions ==> k in after.compactions && after.compactions[k] == db.compactions[k])
    && db.inputs <= after.inputs
  }

  /** A walk that finished leaves no directory to adopt, so the next one adopts nothing. */
  lemma {:induction false} WalkSettles(judge: Judgement, db: T.DB, dirs: seq<string>)
    requires Settling(judge)
    ensures var p := Walk(judge, db, dirs);
      Adds(db, p.db) && (p.ok ==> forall d :: d in dirs ==> !Waits(judge, p.db, d))
  {
    if |dirs| > 0 {
      var front, last := dirs[..|dirs|-1], dirs[|dirs|-1];
      WalkSettles(judge, db, front);
      var p, q := Walk(judge, db, front), Walk(judge, db, dirs);
      if p.ok {
        SettledStep(judge, db, p, front, last);
        assert q == Step(p, judge(p.db, last));
        assert dirs == front + [last];
        assert Adds(db, q.db);
        assert q.ok ==> forall d :: d in dirs ==> !Waits(judge, q.db, d);
      } else {
        assert q == p;
      }
    }
  }

  lemma SettledStep(judge: Judgement, db: T.DB, p: Progress, front: seq<string>, last: string)
    requires Settling(judge) && p.ok && Adds(db, p.db) && forall d :: d in front ==> !Waits(judge, p.db, d)
    ensures var q := Step(p, judge(p.db, last));
      Adds(db, q.db) && (q.ok ==> forall d :: d in front + [last] ==> !Waits(judge, q.db, d))
  {
    if judge(p.db, last).Adopted? {
      Instance(judge, p.db, last, last);
      AddsTransitive(db, p.db, judge(p.db, last).db);
      forall d | d in front ensures !Waits(judge, judge(p.db, last).db, d) {
        Instance(judge, p.db, last, d);
      }
    }
  }

  lemma AddsTransitive(a: T.DB, b: T.DB, c: T.DB)
    requires Adds(a, b) && Adds(b, c)
    ensures Adds(a, c)
  {
  }

  /** A directory whose manifest would pass if its revision had no row. */
  predicate Unrecorded(env: Env, root: Tree, db: T.DB, dir: string, allow: bool) {
    match FileAt(root, dir, MANIFEST_NAME)
    case Some(ManifestFile(m)) =>
      m.revision !in db.compactions && HeaderOk(m) && PlaceOk(dir, m)
        && DirectoryOk(env, root, m.revision, RowOf(dir, m, allow))
    case _ => false
  }

  lemma WaitsExactly(env: Env, root: Tree, db: T.DB, dir: string, allow: bool, now: int)
    ensures Waits(Judging(env, root, allow, now), db, dir) <==> Unrecorded(env, root, db, dir, allow)
  {
  }

  lemma AdoptedAdds(env: Env, root: Tree, db: T.DB, dir: string, allow: bool, now: int)
    requires Judge(env, root, db, dir, allow, now).Adopted?
    ensures Adds(db, Judge(env, root, db, dir, allow, now).db)
    ensures !Unrecorded(env, root, Judge(env, root, db, dir, allow, now).db, dir, allow)
  {
  }

  /** The program's verdicts settle. */
  lemma JudgingSettles(env: Env, root: Tree, allow: bool, now: int)
    ensures Settling(Judging(env, root, allow, now))
  {
    var judge := Judging(env, root, allow, now);
    forall db, d | judge(db, d).Adopted?
      ensures Adds(db, judge(db, d).db) && !Waits(judge, judge(db, d).db, d)
    {
      AdoptedAdds(env, root, db, d, allow, now);
      WaitsExactly(env, root, judge(db, d).db, d, allow, now);
    }
    forall db, d, e | judge(db, d).Adopted? && !Waits(judge, db, e)
      ensures !Waits(judge, judge(db, d).db, e)
    {
      AdoptedAdds(env, root, db, d, allow, now);
      WaitsExactly(env, root, db, e, allow, now);
      WaitsExactly(env, root, judge(db, d).db, e, allow, now);
    }
  }

  /** A directory counts as corrupt exactly when its manifest is torn or has no usable header, when the row of its
      revision does not verify it, or when there is no row and it is in another place than its revision's, lists another
      number of inputs than it captured, lists several files or one that is not a base name, or does not verify against
      the row it would get. */
  lemma CorruptExactly(env: Env, root: Tree, db: T.DB, dir: string, allow: bool, now: int)
    ensures Judge(env, root, db, dir, allow, now).Corrupt? <==>
      && dir in root && "manifest.json" in root[dir]
      && (root[dir]["manifest.json"].ManifestFile? ==>
          var m := root[dir]["manifest.json"].m;
          || m.formatVersion != 1 || m.revision.number < 1
          || m.revision.day.stream.source == "" || m.revision.day.stream.stream == "" || m.revision.day.date == ""
          || (m.revision in db.compactions && !DirectoryOk(env, root, m.revision, db.compactions[m.revision]))
          || (m.revision !in db.compactions
              && (|| dir != RevisionDirectory(m.revision) || |m.inputs| != m.capturedResponses || |m.files| > 1
                  || (|m.files| == 1 && (m.files[0].relativePath == "" || '/' in m.files[0].relativePath))
                  || !DirectoryOk(env, root, m.revision, RowOf(dir, m, allow)))))
  {
  }

  /** The row an adoption writes: the manifest's, published at the manifest's creation when it requires no destination
      and local-only cleanup is allowed. */
  ghost predicate AdoptedRow(row: T.Compaction, dir: string, m: Manifest, allow: bool) {
    && row.directory == dir && row.manifestPath == dir + ['/'] + "manifest.json"
    && (m.files == [] ==> row.dataPath == row.dataSha256 == "" && row.dataBytes == 0)
    && (m.files != [] ==>
        && row.dataPath == dir + ['/'] + m.files[0].relativePath
        && row.dataSha256 == m.files[0].sha256 && row.dataBytes == m.files[0].bytes)
    && row.rows == m.capturedResponses && row.entities == m.entityTotal
    && row.requiredDestinations == m.requiredDestinations && row.createdAt == m.createdAt
    && (if m.requiredDestinations == [] && allow then row.status == "published" && row.publishedAt == Some(m.createdAt)
        else row.status == "ready" && row.publishedAt == None)
  }

  predicate Lists(inputs: seq<InputCapture>, id: string) {
    exists i :: i in inputs && i.id == id
  }

  /** The inputs of the manifest that have a row are linked, each with the recorded hash; the others are excluded. */
  ghost predicate AdoptedLinks(db: T.DB, after: T.DB, m: Manifest) {
    && (forall k, id :: (k, id) in after.inputs <==>
        (k, id) in db.inputs || (k == m.revision && id in db.captures && Lists(m.inputs, id)))
    && (forall i :: i in m.inputs && i.id in db.captures ==> db.captures[i.id].sha256 == i.sha256)
    && (forall i :: i in m.inputs && i.id !in db.captures ==> exists x :: x in m.excluded && x.id == i.id)
  }

  predicate Wanted(m: Manifest, id: string) {
    if m.destinations == [] then id in m.requiredDestinations else exists d :: d in m.destinations && d.id == id
  }

  /** Each destination of the snapshot, or each required one of a manifest without snapshot, gets a pending row. */
  ghost predicate AdoptedQueue(db: T.DB, after: T.DB, m: Manifest, now: int) {
    && (forall u :: u in after.uploads <==> u in db.uploads || (u.0 == m.revision && Wanted(m, u.1)))
    && (forall d :: d in m.destinations ==>
        && (m.revision, d.id) in after.uploads
        && after.uploads[(m.revision, d.id)] == T.Upload(d.required, T.Pending, 0, now, "", "", None))
    && (m.destinations == [] ==> forall id :: id in m.requiredDestinations ==>
        && (m.revision, id) in after.uploads
        && after.uploads[(m.revision, id)] == T.Upload(true, T.Pending, 0, now, "", "", None))
    && (forall u :: u in db.uploads && u.0 != m.revision ==> u in after.uploads && after.uploads[u] == db.uploads[u])
  }

  lemma {:induction false} LinkedMembers(db: T.DB, inputs: seq<T.Input>)
    ensures forall id :: id in T.Linked(db, inputs) <==> id in db.captures && exists i :: i in inputs && i.id == id
  {
    if |inputs| > 0 {
      var front, last := inputs[..|inputs|-1], inputs[|inputs|-1];
      LinkedMembers(db, front);
      assert inputs == front + [last];
    }
  }

  lemma AdoptedIds(inputs: seq<InputCapture>, id: string)
    ensures (exists i :: i in AdoptedInputs(inputs) && i.id == id) <==> Lists(inputs, id)
  {
    var adopted := AdoptedInputs(inputs);
    if Lists(inputs, id) {
      var i :| i in inputs && i.id == id;
      var n :| 0 <= n < |inputs| && inputs[n] == i;
      assert adopted[n] in adopted && adopted[n].id == id;
    }
    if i :| i in adopted && i.id == id {
      var n :| 0 <= n < |adopted| && adopted[n] == i;
      assert inputs[n] in inputs && inputs[n].id == id;
    }
  }

  lemma LinksAdopted(db: T.DB, dir: string, m: Manifest, allow: bool, now: int)
    requires AdoptManifest(db, dir, m, allow, now).Some?
    ensures AdoptedLinks(db, AdoptManifest(db, dir, m, allow, now).value, m)
  {
    var adopted := AdoptedInputs(m.inputs);
    var linked := T.Linked(db, adopted);
    LinkedMembers(db, adopted);
    forall id ensures id in linked <==> id in db.captures && Lists(m.inputs, id) {
      AdoptedIds(m.inputs, id);
    }
    forall k, id ensures (k, id) in T.Links(m.revision, linked) <==> k == m.revision && id in linked {
    }
    forall i | i in m.inputs ensures T.Adoptable(db, T.Input(i.id, i.sha256), ExcludedIds(m.excluded)) {
      var n :| 0 <= n < |m.inputs| && m.inputs[n] == i;
      assert adopted[n] in adopted;
    }
  }

  lemma QueueAdopted(db: T.DB, dir: string, m: Manifest, allow: bool, now: int)
    requires AdoptManifest(db, dir, m, allow, now).Some? && D.SnapshotOk(m.destinations, m.requiredDestinations)
    ensures AdoptedQueue(db, AdoptManifest(db, dir, m, allow, now).value, m, now)
  {
    var queue := D.QueueOf(m.destinations, m.requiredDestinations);
    var rows := T.Queue(m.revision, queue, now);
    if m.destinations != [] {
      D.QueueHolds(m.destinations);
    }
    forall id ensures id in queue <==> Wanted(m, id) {
    }
    forall d | d in m.destinations
      ensures (m.revision, d.id) in rows && rows[(m.revision, d.id)] == T.QueuedUpload(d.required, now)
    {
      assert d.id in queue;
    }
  }

  /** An adoption writes that row, those links and that queue for a revision without a row, and touches no other row. */
  lemma AdoptionWrites(env: Env, root: Tree, db: T.DB, dir: string, allow: bool, now: int)
    requires Judge(env, root, db, dir, allow, now).Adopted?
    ensures dir in root && "manifest.json" in root[dir] && root[dir]["manifest.json"].ManifestFile?
    ensures var m, after := root[dir]["manifest.json"].m, Judge(env, root, db, dir, allow, now).db;
      && m.revision !in db.compactions && m.revision in after.compactions
      && after.compactions == db.compactions[m.revision := after.compactions[m.revision]]
      && AdoptedRow(after.compactions[m.revision], dir, m, allow)
      && AdoptedLinks(db, after, m) && AdoptedQueue(db, after, m, now)
      && after.captures == db.captures && after.ticks == db.ticks && after.summaries == db.summaries
  {
    var m := root[dir]["manifest.json"].m;
    SnapshotVerified(env, root, dir, m, allow);
    LinksAdopted(db, dir, m, allow, now);
    QueueAdopted(db, dir, m, allow, now);
  }

  /** Adoption keeps the publication gate and the foreign keys: the verified snapshot queues no required upload
      for a revision that is adopted as published. */
  lemma {:induction false} WalkKeepsGate(env: Env, root: Tree, db: T.DB, dirs: seq<string>, allow: bool, now: int)
    requires StateLaws.ForeignKeys(db) && StateLaws.GateExact(db)
    ensures var p := Walk(Judging(env, root, allow, now), db, dirs);
      StateLaws.ForeignKeys(p.db) && StateLaws.GateExact(p.db)
  {
    if |dirs| > 0 {
      var judge := Judging(env, root, allow, now);
      WalkKeepsGate(env, root, db, dirs[..|dirs|-1], allow, now);
      JudgeKeepsGate(env, root, Walk(judge, db, dirs[..|dirs|-1]).db, dirs[|dirs|-1], allow, now);
    }
  }

  lemma JudgeKeepsGate(env: Env, root: Tree, db: T.DB, dir: string, allow: bool, now: int)
    requires StateLaws.ForeignKeys(db) && StateLaws.GateExact(db)
    ensures var v := Judge(env, root, db, dir, allow, now);
      v.Adopted? ==> StateLaws.ForeignKeys(v.db) && StateLaws.GateExact(v.db)
  {
    if Judge(env, root, db, dir, allow, now).Adopted? {
      var m := FileAt(root, dir, MANIFEST_NAME).value.m;
      var t := StateLaws.CompactionAdopted(m.revision, RowOf(dir, m, allow), AdoptedInputs(m.inputs),
        ExcludedIds(m.excluded),
                                           D.QueueOf(m.destinations, m.requiredDestinations), now);
      SnapshotVerified(env, root, dir, m, allow);
      if m.requiredDestinations == [] {
        D.EmptyRequiredQueuesNone(m.destinations, m.requiredDestinations);
      }
      StateLaws.ForeignKeysKept(db, t);
      StateLaws.GateKept(db, t);
    }
  }

  lemma SnapshotVerified(env: Env, root: Tree, dir: string, m: Manifest, allow: bool)
    requires FileAt(root, dir, MANIFEST_NAME) == Some(ManifestFile(m))
    requires DirectoryOk(env, root, m.revision, RowOf(dir, m, allow))
    ensures D.SnapshotOk(m.destinations, m.requiredDestinations)
  {
    VerifiedManifest(env, root, m.revision, RowOf(dir, m, allow), dir, m);
  }

  lemma VerifiedManifest(env: Env, root: Tree, k: T.Revision, row: T.Compaction, dir: string, m: Manifest)
    requires row.manifestPath == PathIn(dir, MANIFEST_NAME)
    requires FileAt(root, dir, MANIFEST_NAME) == Some(ManifestFile(m))
    requires DirectoryOk(env, root, k, row)
    ensures ManifestOk(env, root, dir, m, k, row)
  {
    PathInParts(dir, MANIFEST_NAME);
  }

  // ---- crash between the rename and the transaction ----

  /** The transaction that records a revision with its manifest. */
  function RecordManifest(cfg: Config, m: Manifest, captures: seq<Capture>, db: T.DB, now: int): Option<T.DB> {
    T.SaveCompaction(db, m.revision, RowOf(RevisionDirectory(m.revision), m, cfg.allowLocalOnlyCleanup),
      IdList(captures),
                     D.Queue(cfg.destinations), now)
  }

  lemma RecordSucceeds(cfg: Config, m: Manifest, captures: seq<Capture>, db: T.DB, now: int)
    requires m.revision !in db.compactions && Selected(db, m.revision.day, captures)
    ensures RecordManifest(cfg, m, captures, db, now).Some?
    ensures forall c :: c in captures ==> c.id in db.captures && db.captures[c.id].sha256 == c.sha256
  {
    SelectedIds(db, m.revision.day, captures);
    assert forall id :: id in IdList(captures) ==> id in T.DayCaptures(db, m.revision.day);
  }

  /** A compaction whose directory is there and whose transaction was lost: what it was made of, its manifest and its
      instant. */
  datatype LostRow = LostRow(made: Env, stream: Stream, captures: seq<Capture>, m: Manifest, createdAt: int)

  ghost predicate Lost(env: Env, cfg: Config, root: Tree, db: T.DB, dir: string, r: LostRow) {
    Written(cfg, dir, r) && Present(env, cfg, root, dir, r) && Unsaved(db, r)
  }

  predicate Written(cfg: Config, dir: string, r: LostRow) {
    && HeaderOk(r.m) && dir == RevisionDirectory(r.m.revision)
    && '/' !in r.made.hash(DataOf(r.made, r.stream.expectedKind, r.captures))
    && r.m == ManifestOf(r.made, cfg, r.stream, r.m.revision, r.captures, r.m.sanitizedUrl, r.m.tally, r.createdAt)
  }

  predicate Present(env: Env, cfg: Config, root: Tree, dir: string, r: LostRow) {
    && FileAt(root, dir, MANIFEST_NAME) == Some(ManifestFile(r.m))
    && DirectoryOk(env, root, r.m.revision, RowOf(dir, r.m, cfg.allowLocalOnlyCleanup))
  }

  ghost predicate Unsaved(db: T.DB, r: LostRow) {
    Selected(db, r.m.revision.day, r.captures) && r.m.revision !in db.compactions
  }

  /** The directory a compaction left without its row is adopted as the transaction it lost, in every later
      database that still holds the inputs with their recorded hashes. */
  lemma LostRowIsAdopted(env: Env, cfg: Config, root: Tree, db: T.DB, dir: string, r: LostRow, now: int)
    requires D.Identified(cfg.destinations) && Lost(env, cfg, root, db, dir, r)
    ensures RecordManifest(cfg, r.m, r.captures, db, now).Some?
    ensures Judge(env, root, db, dir, cfg.allowLocalOnlyCleanup, now)
      == Adopted(RecordManifest(cfg, r.m, r.captures, db, now).value)
  {
    var allow := cfg.allowLocalOnlyCleanup;
    RecordSucceeds(cfg, r.m, r.captures, db, now);
    WrittenPlaceOk(r.made, cfg, r.stream, r.m.revision, r.captures, r.m.sanitizedUrl, r.m.tally, r.createdAt);
    JudgeUnrecorded(env, root, db, dir, r.m, allow, now);
    AdoptsAsSaved(cfg, r.m, dir, r.captures, db, now);
  }

  /** The lost transactions of the directories, run in the order of the walk. */
  function Replayed(cfg: Config, db: T.DB, dirs: seq<string>, lost: map<string, LostRow>, now: int): T.DB {
    if |dirs| == 0 then db
    else
      var e, dir := Replayed(cfg, db, dirs[..|dirs|-1], lost, now), dirs[|dirs|-1];
      if dir in lost then GetOr(RecordManifest(cfg, lost[dir].m, lost[dir].captures, e, now), e) else e
  }

  /** The tables after some of the lost transactions: captures untouched, and only those revisions added. */
  ghost predicate ReplayedSome(db: T.DB, e: T.DB, dirs: seq<string>, lost: map<string, LostRow>) {
    && e.captures == db.captures
    && forall k :: k in e.compactions <==>
        k in db.compactions || exists d :: d in dirs && d in lost && lost[d].m.revision == k
  }

  lemma StillLost(env: Env, cfg: Config, root: Tree, db: T.DB, e: T.DB, front: seq<string>, lost: map<string, LostRow>,
                  dir: string)
    requires (forall d :: d in lost ==> Lost(env, cfg, root, db, d, lost[d])) && ReplayedSome(db, e, front, lost)
    requires dir in lost && dir !in front
    ensures Lost(env, cfg, root, e, dir, lost[dir])
  {
    assert Lost(env, cfg, root, db, dir, lost[dir]);
    assert T.DayCaptures(e, lost[dir].m.revision.day) == T.DayCaptures(db, lost[dir].m.revision.day);
    forall d | d in front && d in lost ensures lost[d].m.revision != lost[dir].m.revision {
      assert Lost(env, cfg, root, db, d, lost[d]);
    }
  }

  lemma QuietStep(env: Env, root: Tree, db: T.DB, e: T.DB, dir: string, allow: bool, now: int, p: Progress)
    requires !Unrecorded(env, root, db, dir, allow) && p.db == e && p.ok
    requires forall k :: k in db.compactions ==> k in e.compactions
    ensures var q := Step(p, Judge(env, root, e, dir, allow, now)); q.ok && q.db == e
  {
    WaitsExactly(env, root, e, dir, allow, now);
  }

  /** Any number of lost transactions: the walk replays every one of them and nothing else, whichever streams and days
      they are of. */
  lemma {:induction false} LostRowsAreAdopted(env: Env, cfg: Config, root: Tree, db: T.DB, dirs: seq<string>,
                                              lost: map<string, LostRow>, now: int)
    requires D.Identified(cfg.destinations) && T.Distinct(dirs)
    requires forall d :: d in lost ==> Lost(env, cfg, root, db, d, lost[d])
    requires forall d :: d in dirs && d !in lost ==> !Unrecorded(env, root, db, d, cfg.allowLocalOnlyCleanup)
    ensures var p := Walk(Judging(env, root, cfg.allowLocalOnlyCleanup, now), db, dirs);
      p.ok && p.db == Replayed(cfg, db, dirs, lost, now) && ReplayedSome(db, p.db, dirs, lost)
  {
    if |dirs| > 0 {
      var allow := cfg.allowLocalOnlyCleanup;
      var front, last := dirs[..|dirs|-1], dirs[|dirs|-1];
      assert dirs == front + [last] && last !in front;
      LostRowsAreAdopted(env, cfg, root, db, front, lost, now);
      var p := Walk(Judging(env, root, allow, now), db, front);
      ReplayStep(env, cfg, root, db, front, lost, last, now, p);
      assert Walk(Judging(env, root, allow, now), db, dirs) == Step(p, Judge(env, root, p.db, last, allow, now));
    }
  }

  lemma ReplayStep(env: Env, cfg: Config, root: Tree, db: T.DB, front: seq<string>, lost: map<string, LostRow>,
                   last: string, now: int, p: Progress)
    requires D.Identified(cfg.destinations) && last !in front && p.ok && ReplayedSome(db, p.db, front, lost)
    requires forall d :: d in lost ==> Lost(env, cfg, root, db, d, lost[d])
    requires last !in lost ==> !Unrecorded(env, root, db, last, cfg.allowLocalOnlyCleanup)
    ensures Replays(env, cfg, root, db, front, lost, last, now, p)
  {
    if last in lost {
      StillLost(env, cfg, root, db, p.db, front, lost, last);
      ReplayLost(env, cfg, root, db, front, lost, last, now, p);
    } else {
      QuietStep(env, root, db, p.db, last, cfg.allowLocalOnlyCleanup, now, p);
      ReplayedNone(db, p.db, front, lost, last);
    }
  }

  /** The walk's next step replays the lost transaction of its directory, if it has one. */
  ghost predicate Replays(env: Env, cfg: Config, root: Tree, db: T.DB, front: seq<string>, lost: map<string, LostRow>,
                          last: string, now: int, p: Progress)
  {
    var q := Step(p, Judge(env, root, p.db, last, cfg.allowLocalOnlyCleanup, now));
    && q.ok && ReplayedSome(db, q.db, front + [last], lost)
    && q.db == if last in lost then GetOr(RecordManifest(cfg, lost[last].m, lost[last].captures, p.db, now), p.db)
               else p.db
  }

  lemma ReplayLost(env: Env, cfg: Config, root: Tree, db: T.DB, front: seq<string>, lost: map<string, LostRow>,
                   last: string, now: int, p: Progress)
    requires D.Identified(cfg.destinations) && p.ok && ReplayedSome(db, p.db, front, lost)
    requires last in lost && Lost(env, cfg, root, p.db, last, lost[last])
    ensures Replays(env, cfg, root, db, front, lost, last, now, p)
  {
    LostRowIsAdopted(env, cfg, root, p.db, last, lost[last], now);
    ReplayedOne(cfg, db, p.db, front, lost, last, now);
  }

  lemma ReplayedNone(db: T.DB, e: T.DB, front: seq<string>, lost: map<string, LostRow>, last: string)
    requires ReplayedSome(db, e, front, lost) && last !in lost
    ensures ReplayedSome(db, e, front + [last], lost)
  {
    assert forall d :: d in front + [last] && d in lost <==> d in front && d in lost;
  }

  lemma ReplayedOne(cfg: Config, db: T.DB, e: T.DB, front: seq<string>, lost: map<string, LostRow>, last: string,
                    now: int)
    requires ReplayedSome(db, e, front, lost) && last in lost
    requires RecordManifest(cfg, lost[last].m, lost[last].captures, e, now).Some?
    ensures ReplayedSome(db, RecordManifest(cfg, lost[last].m, lost[last].captures, e, now).value, front + [last], lost)
  {
    var f := RecordManifest(cfg, lost[last].m, lost[last].captures, e, now).value;
    forall k ensures k in f.compactions <==>
      k in db.compactions || exists d :: d in front + [last] && d in lost && lost[d].m.revision == k
    {
      if k in e.compactions && k !in db.compactions {
        var d :| d in front && d in lost && lost[d].m.revision == k;
        assert d in front + [last];
      }
      if k == lost[last].m.revision {
        assert last in front + [last];
      }
    }
  }

  lemma WrittenPlaceOk(env: Env, cfg: Config, stream: Stream, k: T.Revision, captures: seq<Capture>, url: string,
                       tally: Tallies.Tally, now: int)
    requires '/' !in env.hash(DataOf(env, stream.expectedKind, captures))
    ensures PlaceOk(RevisionDirectory(k), ManifestOf(env, cfg, stream, k, captures, url, tally, now))
  {
    NameIsBase(env.hash(DataOf(env, stream.expectedKind, captures)));
  }

  lemma AdoptsAsSaved(cfg: Config, m: Manifest, dir: string, captures: seq<Capture>, db: T.DB, now: int)
    requires D.Identified(cfg.destinations) && m.inputs == InputsOf(captures)
    requires m.destinations == D.SortDestinations(cfg.destinations)
      && m.requiredDestinations == D.Sorted(D.RequiredIds(cfg.destinations))
    requires forall c :: c in captures ==> c.id in db.captures && db.captures[c.id].sha256 == c.sha256
    ensures AdoptManifest(db, dir, m, cfg.allowLocalOnlyCleanup, now)
         == T.SaveCompaction(db, m.revision, RowOf(dir, m, cfg.allowLocalOnlyCleanup), IdList(captures),
           D.Queue(cfg.destinations), now)
  {
    QueueRebuilt(cfg, m);
    AdoptionIsSaving(db, m.revision, RowOf(dir, m, cfg.allowLocalOnlyCleanup), captures, ExcludedIds(m.excluded),
                     D.Queue(cfg.destinations), now);
  }

  lemma JudgeUnrecorded(env: Env, root: Tree, db: T.DB, dir: string, m: Manifest, allow: bool, now: int)
    requires FileAt(root, dir, MANIFEST_NAME) == Some(ManifestFile(m)) && m.revision !in db.compactions
    requires HeaderOk(m) && PlaceOk(dir, m) && DirectoryOk(env, root, m.revision, RowOf(dir, m, allow))
    ensures var adopted := AdoptManifest(db, dir, m, allow, now);
      Judge(env, root, db, dir, allow, now) == if adopted.Some? then Adopted(adopted.value) else Rejected
  {
  }

  lemma QueueRebuilt(cfg: Config, m: Manifest)
    requires D.Identified(cfg.destinations) && m.destinations == D.SortDestinations(cfg.destinations)
    requires m.requiredDestinations == D.Sorted(D.RequiredIds(cfg.destinations))
    ensures D.QueueOf(m.destinations, m.requiredDestinations) == D.Queue(cfg.destinations)
  {
    D.QueueOfSnapshot(cfg.destinations);
    D.SortMembers(cfg.destinations);
    if |cfg.destinations| > 0 {
      assert cfg.destinations[0] in m.destinations;
    }
  }

  lemma SameDirectory(env: Env, root: Tree, changed: Tree, dir: string, m: Manifest, k: T.Revision, row: T.Compaction)
    requires dir in root && dir in changed && changed[dir] == root[dir]
    ensures ManifestOk(env, root, dir, m, k, row) <==> ManifestOk(env, changed, dir, m, k, row)
  {
    assert forall a :: a in m.files ==> (ArtifactOk(env, root, dir, m, row, a) <==>
      ArtifactOk(env, changed, dir, m, row, a));
  }

  /** Writing one directory changes the verdict on no other. */
  lemma OtherDirectories(env: Env, root: Tree, changed: Tree, dir: string, db: T.DB, allow: bool)
    requires dir in root <==> dir in changed
    requires dir in root ==> changed[dir] == root[dir]
    ensures Unrecorded(env, root, db, dir, allow) <==> Unrecorded(env, changed, db, dir, allow)
  {
    var file := FileAt(root, dir, MANIFEST_NAME);
    if file.Some? && file.value.ManifestFile? {
      PathInParts(dir, MANIFEST_NAME);
      SameDirectory(env, root, changed, dir, file.value.m, file.value.m.revision, RowOf(dir, file.value.m, allow));
    }
  }

  lemma NextIsNew(db: T.DB, day: T.Day)
    ensures T.Revision(day, T.NextRevision(db, day)) !in db.compactions
  {
    assert forall k :: k in db.compactions && k.day == day ==> k.number in T.RevisionNumbers(db, day);
  }

  /** The rows lost before the compaction are still lost beside the one it loses. */
  lemma LostTogether(env: Env, cfg: Config, before: Tree, root: Tree, db: T.DB, lost: map<string, LostRow>, dir: string,
                     r: LostRow)
    requires dir !in before && dir in root && root == before[dir := root[dir]]
    requires Lost(env, cfg, root, db, dir, r) && forall d :: d in lost ==> Lost(env, cfg, before, db, d, lost[d])
    ensures var all := lost[dir := r]; forall d :: d in all ==> Lost(env, cfg, root, db, d, all[d])
  {
    var all := lost[dir := r];
    forall d | d in all ensures Lost(env, cfg, root, db, d, all[d]) {
      if d != dir { LostBeside(env, cfg, before, root, db, dir, d, lost[d]); }
    }
  }

  lemma LostBeside(env: Env, cfg: Config, before: Tree, root: Tree, db: T.DB, dir: string, d: string, r: LostRow)
    requires Lost(env, cfg, before, db, d, r) && d != dir && dir in root && root == before[dir := root[dir]]
    ensures Lost(env, cfg, root, db, d, r)
  {
    PresentElsewhere(env, cfg, before, root, d, r);
  }

  lemma PresentElsewhere(env: Env, cfg: Config, before: Tree, root: Tree, d: string, r: LostRow)
    requires Present(env, cfg, before, d, r) && d in root && d in before && root[d] == before[d]
    ensures Present(env, cfg, root, d, r)
  {
    var row := RowOf(d, r.m, cfg.allowLocalOnlyCleanup);
    VerifiedManifest(env, before, r.m.revision, row, d, r.m);
    SameDirectory(env, before, root, d, r.m, r.m.revision, row);
    ManifestVerifies(env, root, r.m.revision, row, d, r.m);
  }

  lemma ManifestVerifies(env: Env, root: Tree, k: T.Revision, row: T.Compaction, dir: string, m: Manifest)
    requires row.manifestPath == PathIn(dir, MANIFEST_NAME)
    requires FileAt(root, dir, MANIFEST_NAME) == Some(ManifestFile(m))
    requires ManifestOk(env, root, dir, m, k, row)
    ensures DirectoryOk(env, root, k, row)
  {
    PathInParts(dir, MANIFEST_NAME);
  }

  lemma CompactedIsLost(env: Env, cfg: Config, stream: Stream, k: T.Revision, captures: seq<Capture>, m: Manifest,
                        createdAt: int, before: Tree, root: Tree, db: T.DB)
    requires Hexadecimal(env) && HeaderOk(m) && k !in db.compactions && Selected(db, k.day, captures)
    requires m == ManifestOf(env, cfg, stream, k, captures, m.sanitizedUrl, m.tally, createdAt)
    requires root == before[RevisionDirectory(k) := FilesOf(env, stream.expectedKind, captures, m)]
    requires DirectoryOk(env, root, k, RowOf(RevisionDirectory(k), m, cfg.allowLocalOnlyCleanup))
    ensures Lost(env, cfg, root, db, RevisionDirectory(k), LostRow(env, stream, captures, m, createdAt))
  {
  }

  /** A compaction that dies between the rename and its transaction, beside any number of others whose transactions were
      lost, followed by a restart: the tables end as if all those transactions had committed. */
  method CompactDiesAndRestarts(c: Compactor, env: Env, cfg: Config, stream: Stream, day: T.Day, requested: int,
                                captures: seq<Capture>, fault: bool, createdAt: int, dirs: seq<string>, now: int,
                                ghost lost: map<string, LostRow>)
    returns (r: Outcome)
    requires Hexadecimal(env) && D.Identified(cfg.destinations) && Selected(c.store.Contents(), day, captures)
    requires day.stream.source != "" && day.stream.stream != "" && day.date != ""
      && T.NextRevision(c.store.Contents(), day) >= 1
    requires T.Distinct(dirs)
    requires forall d :: d in lost ==> Lost(env, cfg, c.root, c.store.Contents(), d, lost[d])
    requires forall d :: d in dirs && d in c.root && d !in lost ==>
      !Unrecorded(env, c.root, c.store.Contents(), d, cfg.allowLocalOnlyCleanup)
    modifies c`root, c.store
    ensures var db, k := old(c.store.Contents()), T.Revision(day, T.NextRevision(old(c.store.Contents()), day));
      r.Recorded? ==>
        && r.manifest.revision == k
        && var all := lost[RevisionDirectory(k) := LostRow(env, stream, captures, r.manifest, createdAt)];
           c.store.Contents() == Replayed(cfg, db, dirs, all, now) && ReplayedSome(db, c.store.Contents(), dirs, all)
  {
    ghost var db, before := c.store.Contents(), c.root;
    r := c.Compact(env, cfg, stream, day, requested, captures, fault, createdAt, now, true);
    if r.Recorded? {
      ghost var k := T.Revision(day, T.NextRevision(db, day));
      ghost var row := LostRow(env, stream, captures, r.manifest, createdAt);
      NextIsNew(db, day);
      CompactedIsLost(env, cfg, stream, k, captures, r.manifest, createdAt, before, c.root, db);
      RestartReplays(env, cfg, before, c.root, db, dirs, lost, RevisionDirectory(k), row, now);
      var adopted, corrupt, ok := All(env, c.root, c.store, dirs, cfg.allowLocalOnlyCleanup, now);
    }
  }

  lemma RestartReplays(env: Env, cfg: Config, before: Tree, root: Tree, db: T.DB, dirs: seq<string>,
                       lost: map<string, LostRow>, dir: string, row: LostRow, now: int)
    requires D.Identified(cfg.destinations) && T.Distinct(dirs)
    requires dir !in before && dir in root && root == before[dir := root[dir]] && Lost(env, cfg, root, db, dir, row)
    requires forall d :: d in lost ==> Lost(env, cfg, before, db, d, lost[d])
    requires forall d :: d in dirs && d in before && d !in lost ==>
      !Unrecorded(env, before, db, d, cfg.allowLocalOnlyCleanup)
    ensures var p := Walk(Judging(env, root, cfg.allowLocalOnlyCleanup, now), db, dirs);
      p.db == Replayed(cfg, db, dirs, lost[dir := row], now) && ReplayedSome(db, p.db, dirs, lost[dir := row])
  {
    LostTogether(env, cfg, before, root, db, lost, dir, row);
    OthersSettled(env, before, root, db, dirs, lost[dir := row], dir, cfg.allowLocalOnlyCleanup);
    LostRowsAreAdopted(env, cfg, root, db, dirs, lost[dir := row], now);
  }

  lemma OthersSettled(env: Env, before: Tree, root: Tree, db: T.DB, dirs: seq<string>, all: map<string, LostRow>,
                      dir: string, allow: bool)
    requires dir in all && dir in root && root == before[dir := root[dir]]
    requires forall d :: d in dirs && d in before && d !in all ==> !Unrecorded(env, before, db, d, allow)
    ensures forall d :: d in dirs && d !in all ==> !Unrecorded(env, root, db, d, allow)
  {
    forall d | d in dirs && d !in all ensures !Unrecorded(env, root, db, d, allow) {
      if d in before { OtherDirectories(env, before, root, d, db, allow); }
    }
  }
}
