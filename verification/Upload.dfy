/** The upload worker of one destination: rows taken in turn, artifacts copied before their manifest, each copy
    verified by hash, with every remote command allowed to fail. */
module Upload {
  import opened Prelude
  import opened Tables
  import opened Lifecycle
  import opened LifecycleSafety
  import A = Artifact
  import C = Compact
  import Hive
  import StateStore

  /** Why a row was not verified; the last stands for the errors that come from rclone. */
  datatype Failure =
    DestinationNotConfigured | Refused(why: Hive.Error) | LocalIntegrity | RemoteIntegrity | Transfer(category: string)

  datatype Outcome = Success | Broke(failure: Failure)

  function Category(f: Failure): string {
    match f
    case DestinationNotConfigured => "destination_not_configured"
    case Refused(DatasetInvalid) => "dataset_invalid"
    case Refused(StreamNotConfigured) => "stream_not_configured"
    case LocalIntegrity => "local_integrity"
    case RemoteIntegrity => "remote_integrity"
    case Transfer(category) => category
  }

  predicate IsPermanent(f: Failure) {
    f.LocalIntegrity? || f.RemoteIntegrity? || (f.Refused? && f.why.DatasetInvalid?)
  }

  /** What one rclone command did: worked, failed without effect, failed after its effect, or found that the remote
      object differs: then a copy gives up, and a hash query answers another hash. */
  datatype Command = Works | Fails(category: string) | FailsLate(category: string) | Differs

  /** Which write of a row to the tables fails, if any: the attempt mark, or the row's new status. */
  datatype Fault = NoFault | LosesAttempt | LosesVerdict

  const MINUTE: int := 60_000_000_000

  function Doublings(n: nat): nat {
    if n == 0 then 1 else 2 * Doublings(n - 1)
  }

  /** The upper end of the jittered delay before attempt number `attempt + 1`. */
  function BackoffMaximum(attempt: int): int {
    var n := if attempt < 1 then 1 else attempt;
    var maximum := Doublings(if n - 1 < 6 then n - 1 else 6) * 5 * MINUTE;
    if maximum > 360 * MINUTE then 360 * MINUTE else maximum
  }

  /** The delay doubles up to the seventh attempt and stays at 320 minutes: the six-hour cap never applies. */
  lemma CapNeverReached(attempt: int)
    ensures 5 * MINUTE <= BackoffMaximum(attempt) <= 320 * MINUTE
    ensures 1 <= attempt < 7 ==> BackoffMaximum(attempt + 1) == 2 * BackoffMaximum(attempt)
    ensures attempt >= 7 ==> BackoffMaximum(attempt) == 320 * MINUTE
  {
    assert Doublings(1) == 2 && Doublings(2) == 4 && Doublings(3) == 8;
    assert Doublings(4) == 16 && Doublings(5) == 32 && Doublings(6) == 64;
    var n := if attempt < 1 then 1 else attempt;
    assert n - 1 >= 6 || n - 1 == 0 || n - 1 == 1 || n - 1 == 2 || n - 1 == 3 || n - 1 == 4 || n - 1 == 5;
  }

  /** The manifest a row's revision has on disk. */
  function StoredManifest(root: C.Tree, row: Compaction): Option<C.Manifest> {
    match C.FileAt(root, C.DirOf(row.manifestPath), C.NameOf(row.manifestPath))
    case Some(ManifestFile(m)) => Some(m)
    case _ => None
  }

  /** A verified row: verified before, or published by this worker. */
  predicate Proven(w: World, root: C.Tree, before: DB, after: DB, remote: map<Address, Object>, u: UploadKey)
    requires u in after.uploads
  {
    || (u in before.uploads && after.uploads[u] == before.uploads[u])
    || (u.0 in after.compactions && StoredManifest(root, after.compactions[u.0]).Some?
        && RevisionThere(w, remote, u.1, after.uploads[u].remotePath,
           StoredManifest(root, after.compactions[u.0]).value))
  }

  /** The paths of a revision do not change while a worker runs. */
  predicate SamePaths(db: DB, e: DB) {
    e.compactions.Keys == db.compactions.Keys
    && forall k :: k in db.compactions ==> e.compactions[k].manifestPath == db.compactions[k].manifestPath
  }

  class Uploader {
    const w: World
    const env: A.Env
    const root: C.Tree
    const store: StateStore.Store
    const commands: nat -> Command
    var used: nat
    var remote: map<Address, Object>

    constructor (w: World, env: A.Env, root: C.Tree, store: StateStore.Store, commands: nat -> Command,
                 remote: map<Address, Object>)
      ensures this.w == w && this.env == env && this.root == root && this.store == store && this.remote == remote
    {
      this.w, this.env, this.root, this.store, this.commands := w, env, root, store, commands;
      this.used, this.remote := 0, remote;
    }

    /** The next `n` commands do what they are asked. */
    ghost predicate Smooth(n: nat) reads this {
      Ran(used, n)
    }

    predicate Ran(start: nat, n: nat) {
      forall k :: start <= k < start + n ==> commands(k).Works?
    }

    /** Nothing, or the same content, is at the address. */
    predicate Welcome(there: map<Address, Object>, at: Address, hash: string) {
      at in there ==> w.hash(there[at]) == hash
    }

    /** The artifact is on disk as its entry says, and the remote has room for it. */
    predicate Transferable(there: map<Address, Object>, dest: string, dir: string, localDir: string, a: C.FileEntry) {
      && LocalData(localDir, a.relativePath).Some? && w.hash(LocalData(localDir, a.relativePath).value) == a.sha256
      && Welcome(there, (dest, dir, a.relativePath), a.sha256)
    }

    function LocalData(localDir: string, name: string): Option<Object> {
      match C.FileAt(root, localDir, name)
      case Some(DataFile(data)) => Some(DataObject(data))
      case _ => None
    }

    /** A new object is the local file of its name, one of the artifacts copied. */
    predicate Landed(there: map<Address, Object>, at: Address, dest: string, dir: string, localDir: string,
                     files: seq<C.FileEntry>) {
      && at.0 == dest && at.1 == dir && at in there && Some(there[at]) == LocalData(localDir, at.2)
      && exists a :: a in files && a.relativePath == at.2
    }

    /** The copy of this object worked, and then the remote answered another hash than the expected one. */
    predicate Altered(there: map<Address, Object>, local: Option<Object>, at: Address, expected: string, start: nat) {
      && commands(start).Works? && local.Some? && Welcome(there, at, w.hash(local.value))
      && (commands(start + 1).Differs? || (commands(start + 1).Works? && w.hash(local.value) != expected))
    }

    predicate AllTransferable(there: map<Address, Object>, dest: string, dir: string, localDir: string,
                              files: seq<C.FileEntry>) {
      forall i :: 0 <= i < |files| ==> Transferable(there, dest, dir, localDir, files[i])
    }

    /** Every artifact before number `n` was transferred, and the remote has number `n` altered. */
    predicate ArtifactAltered(there: map<Address, Object>, dest: string, dir: string, localDir: string,
                              files: seq<C.FileEntry>, n: nat, start: nat)
      requires n < |files|
    {
      && Ran(start, 2 * n) && AllTransferable(there, dest, dir, localDir, files[..n])
      && Altered(there, LocalData(localDir, files[n].relativePath), (dest, dir, files[n].relativePath),
                 files[n].sha256, start + 2 * n)
    }

    predicate SomeAltered(there: map<Address, Object>, dest: string, dir: string, localDir: string,
                          files: seq<C.FileEntry>, start: nat) {
      exists n :: 0 <= n < |files| && ArtifactAltered(there, dest, dir, localDir, files, n, start)
    }

    /** The remote answers another hash for the first object that goes wrong: an artifact, or then the manifest. */
    predicate RemoteAltered(there: map<Address, Object>, dest: string, dir: string, localDir: string, m: C.Manifest,
                            start: nat) {
      || SomeAltered(there, dest, dir, localDir, m.files, start)
      || (Ran(start, 2 * |m.files|) && AllTransferable(there, dest, dir, localDir, m.files)
          && Altered(there, Some(ManifestObject(m)), (dest, dir, MANIFEST), w.hash(ManifestObject(m)),
                     start + 2 * |m.files|))
    }

    /** An altered artifact stops the transfers, so none is altered before, and one after, the first failure. */
    lemma FirstAltered(there: map<Address, Object>, dest: string, dir: string, localDir: string,
                       files: seq<C.FileEntry>, n: nat, start: nat)
      requires n < |files| && Ran(start, 2 * n) && AllTransferable(there, dest, dir, localDir, files[..n])
      requires !(Ran(start + 2 * n, 2) && Transferable(there, dest, dir, localDir, files[n]))
      ensures SomeAltered(there, dest, dir, localDir, files, start) <==>
        ArtifactAltered(there, dest, dir, localDir, files, n, start)
    {
      forall i | 0 <= i < |files| && i != n ensures !ArtifactAltered(there, dest, dir, localDir, files, i, start) {
        if i < n {
          assert files[..n][i] == files[i];
          NotAltered(there, dest, dir, localDir, files, i, start);
        } else {
          assert files[..i][n] == files[n] && (Ran(start, 2 * i) ==> Ran(start + 2 * n, 2));
        }
      }
    }

    lemma NoneAltered(there: map<Address, Object>, dest: string, dir: string, localDir: string,
                      files: seq<C.FileEntry>, start: nat)
      requires Ran(start, 2 * |files|) && AllTransferable(there, dest, dir, localDir, files)
      ensures !SomeAltered(there, dest, dir, localDir, files, start)
    {
      forall i | 0 <= i < |files| ensures !ArtifactAltered(there, dest, dir, localDir, files, i, start) {
        NotAltered(there, dest, dir, localDir, files, i, start);
      }
    }

    lemma NotAltered(there: map<Address, Object>, dest: string, dir: string, localDir: string,
                     files: seq<C.FileEntry>, i: nat, start: nat)
      requires i < |files| && Transferable(there, dest, dir, localDir, files[i])
      requires commands(start + 2 * i + 1).Works?
      ensures !ArtifactAltered(there, dest, dir, localDir, files, i, start)
    {
    }

    predicate Sendable(there: map<Address, Object>, dest: string, dir: string, localDir: string, m: C.Manifest) {
      && AllTransferable(there, dest, dir, localDir, m.files)
      && Welcome(there, (dest, dir, MANIFEST), w.hash(ManifestObject(m)))
    }

    /** All that publishing a revision takes. */
    ghost predicate Deliverable(dest: string, dir: string, k: Revision, row: Compaction, m: C.Manifest) reads this {
      && C.DirectoryOk(env, root, k, row) && Smooth(2 * |m.files| + 2)
      && Sendable(remote, dest, dir, C.DirOf(row.manifestPath), m)
    }

    /** And all that verifying a row takes. */
    ghost predicate Verifiable(u: UploadKey, row: Compaction) reads this {
      && StoredManifest(root, row).Some? && w.dirOf(u.1, StoredManifest(root, row).value).Some?
      && Deliverable(u.1, w.dirOf(u.1, StoredManifest(root, row).value).value, u.0, row,
         StoredManifest(root, row).value)
    }

    method Rclone() returns (c: Command)
      modifies this`used
      ensures c == commands(old(used)) && used == old(used) + 1
    {
      c := commands(used);
      used := used + 1;
    }

    /** copyto --immutable --checksum: stores a new object, accepts an equal one, refuses a different one. */
    method CopyTo(local: Option<Object>, at: Address) returns (r: Outcome)
      modifies this`used, this`remote
      ensures remote == old(remote) || (at !in old(remote) && local.Some? && remote == old(remote)[at := local.value])
      ensures r.Success? ==> local.Some? && at in remote && w.hash(remote[at]) == w.hash(local.value)
      ensures r.Success? <==> old(Smooth(1)) && local.Some? && Welcome(old(remote), at, w.hash(local.value))
      ensures r.Broke? ==> r.failure.Transfer?
      ensures used == old(used) + 1
    {
      var c := Rclone();
      if c.Fails? {
        return Broke(Transfer(c.category));
      }
      if local.None? || c.Differs? {
        return Broke(Transfer("rclone_failure"));
      }
      if at in remote {
        r := if w.hash(remote[at]) == w.hash(local.value) then Success else Broke(Transfer("rclone_failure"));
      } else {
        remote := remote[at := local.value];
        r := Success;
      }
      if c.FailsLate? {
        r := Broke(Transfer(c.category));
      }
    }

    /** copyAndVerify: the copy, then the hash of what is there against the expected one. */
    method CopyAndVerify(local: Option<Object>, at: Address, expected: string) returns (r: Outcome)
      modifies this`used, this`remote
      ensures remote == old(remote) || (at !in old(remote) && local.Some? && remote == old(remote)[at := local.value])
      ensures r.Success? ==> at in remote && w.hash(remote[at]) == expected
      ensures r.Success? <==>
        old(Smooth(2)) && local.Some? && w.hash(local.value) == expected && Welcome(old(remote), at, expected)
      ensures r == Broke(RemoteIntegrity) <==> Altered(old(remote), local, at, expected, old(used))
      ensures r.Broke? ==> r.failure.Transfer? || r.failure.RemoteIntegrity?
      ensures r.Success? ==> used == old(used) + 2
    {
      assert old(Smooth(2)) ==> commands(used).Works? && commands(used + 1).Works?;
      r := CopyTo(local, at);
      if r.Broke? {
        return;
      }
      var c := Rclone();
      if c.Fails? || c.FailsLate? {
        return Broke(Transfer(c.category));
      }
      if c.Differs? || w.hash(remote[at]) != expected {
        r := Broke(RemoteIntegrity);
      }
    }

    /** `done` was copied to a remote that held `first`: nothing there was replaced, what is new are artifacts, and no
        manifest is without its own. */
    ghost predicate Copying(first: map<Address, Object>, there: map<Address, Object>, dest: string, dir: string,
                            localDir: string, done: seq<C.FileEntry>) {
      && Grows(first, there) && (ManifestLast(w, first) ==> ManifestLast(w, there))
      && forall at: Address :: at in there && at !in first ==> Landed(there, at, dest, dir, localDir, done)
    }

    lemma CopyingMore(first: map<Address, Object>, before: map<Address, Object>, after: map<Address, Object>,
                      dest: string, dir: string, localDir: string, files: seq<C.FileEntry>, n: nat)
      requires n < |files| && Copying(first, before, dest, dir, localDir, files[..n])
      requires var at, local := (dest, dir, files[n].relativePath), LocalData(localDir, files[n].relativePath);
        after == before || (at !in before && local.Some? && after == before[at := local.value])
      ensures Copying(first, after, dest, dir, localDir, files[..n+1])
      ensures ArtifactsThere(w, before, dest, dir, files[..n]) ==> ArtifactsThere(w, after, dest, dir, files[..n])
    {
      var at, local := (dest, dir, files[n].relativePath), LocalData(localDir, files[n].relativePath);
      assert files[..n+1] == files[..n] + [files[n]];
      if local.Some? { DataPut(w, before, after, at, local.value); }
      if ArtifactsThere(w, before, dest, dir, files[..n]) { GrowsThere(w, before, after, dest, dir, files[..n]); }
      forall x: Address | x in after && x !in first ensures Landed(after, x, dest, dir, localDir, files[..n+1]) {
        if x in before {
          var e :| e in files[..n] && e.relativePath == x.2;
          assert e in files[..n+1];
        } else {
          assert files[n] in files[..n+1];
        }
      }
    }

    lemma RanOn(start: nat, n: nat)
      ensures Ran(start, n + 2) <==> Ran(start, n) && commands(start + n).Works? && commands(start + n + 1).Works?
    {
    }

    /** Copying artifacts leaves the place of the manifest as it was. */
    lemma ManifestRoom(first: map<Address, Object>, there: map<Address, Object>, dest: string, dir: string,
                       localDir: string, files: seq<C.FileEntry>, n: nat)
      requires n <= |files| && Copying(first, there, dest, dir, localDir, files[..n])
      requires forall a :: a in files ==> a.relativePath != MANIFEST
      ensures (dest, dir, MANIFEST) in there <==> (dest, dir, MANIFEST) in first
      ensures (dest, dir, MANIFEST) in first ==> there[(dest, dir, MANIFEST)] == first[(dest, dir, MANIFEST)]
    {
      assert forall a :: a in files[..n] ==> a in files;
    }

    /** What this revision put there itself is welcome to itself. */
    lemma OwnWelcome(first: map<Address, Object>, there: map<Address, Object>, dest: string, dir: string,
                     localDir: string, done: seq<C.FileEntry>, name: string, hash: string)
      requires Copying(first, there, dest, dir, localDir, done)
      requires LocalData(localDir, name).Some? && w.hash(LocalData(localDir, name).value) == hash
      ensures Welcome(there, (dest, dir, name), hash) <==> Welcome(first, (dest, dir, name), hash)
    {
      var at: Address := (dest, dir, name);
      assert at in there && at !in first ==> Landed(there, at, dest, dir, localDir, done);
    }

    /** The first `n` artifacts were copied and verified, with two commands each. */
    predicate Copied(first: map<Address, Object>, there: map<Address, Object>, dest: string, dir: string,
                     localDir: string, files: seq<C.FileEntry>, n: nat, start: nat)
      requires n <= |files|
    {
      && Ran(start, 2 * n) && AllTransferable(first, dest, dir, localDir, files[..n])
      && ArtifactsThere(w, there, dest, dir, files[..n])
    }

    lemma CopyWent(first: map<Address, Object>, before: map<Address, Object>, after: map<Address, Object>,
                   dest: string, dir: string, localDir: string, files: seq<C.FileEntry>, n: nat, start: nat)
      requires n < |files| && Copied(first, before, dest, dir, localDir, files, n, start)
      requires Ran(start + 2 * n, 2) && Transferable(first, dest, dir, localDir, files[n])
      requires ArtifactsThere(w, after, dest, dir, files[..n]) && ArtifactThere(w, after, dest, dir, files[n])
      ensures Copied(first, after, dest, dir, localDir, files, n + 1, start)
    {
      assert files[..n+1] == files[..n] + [files[n]];
      RanOn(start, 2 * n);
    }

    /** Artifact `n`, after those before it. */
    method CopyArtifact(dest: string, dir: string, localDir: string, files: seq<C.FileEntry>, n: nat,
                        ghost first: map<Address, Object>, ghost start: nat) returns (r: Outcome)
      requires n < |files| && used == start + 2 * n && Copied(first, remote, dest, dir, localDir, files, n, start)
      requires Copying(first, remote, dest, dir, localDir, files[..n])
      modifies this`used, this`remote
      ensures Copying(first, remote, dest, dir, localDir, files[..n+1])
      ensures r.Success? ==>
        Copied(first, remote, dest, dir, localDir, files, n + 1, start) && used == start + 2 * (n + 1)
      ensures r.Broke? ==> !(Ran(start, 2 * |files|) && AllTransferable(first, dest, dir, localDir, files))
      ensures r.Broke? ==> (r == Broke(RemoteIntegrity) <==> SomeAltered(first, dest, dir, localDir, files, start))
      ensures r.Broke? ==> r.failure.Transfer? || r.failure.RemoteIntegrity?
    {
      var local := LocalData(localDir, files[n].relativePath);
      ghost var before := remote;
      if local.Some? {
        OwnWelcome(first, before, dest, dir, localDir, files[..n], files[n].relativePath, w.hash(local.value));
      }
      r := CopyAndVerify(local, (dest, dir, files[n].relativePath), files[n].sha256);
      CopyingMore(first, before, remote, dest, dir, localDir, files, n);
      if r.Success? {
        CopyWent(first, before, remote, dest, dir, localDir, files, n, start);
      } else {
        FirstAltered(first, dest, dir, localDir, files, n, start);
        assert Ran(start, 2 * |files|) ==> Ran(start + 2 * n, 2);
      }
    }

    /** The artifacts of a manifest, in order, up to the first failure. */
    method CopyArtifacts(dest: string, dir: string, localDir: string, files: seq<C.FileEntry>)
      returns (r: Outcome, ghost copied: nat)
      modifies this`used, this`remote
      ensures copied <= |files| && Copying(old(remote), remote, dest, dir, localDir, files[..copied])
      ensures r.Success? ==> ArtifactsThere(w, remote, dest, dir, files) && used == old(used) + 2 * |files|
      ensures r.Success? <==> old(Smooth(2 * |files|)) && AllTransferable(old(remote), dest, dir, localDir, files)
      ensures r == Broke(RemoteIntegrity) <==> SomeAltered(old(remote), dest, dir, localDir, files, old(used))
      ensures r.Broke? ==> r.failure.Transfer? || r.failure.RemoteIntegrity?
    {
      r, copied := Success, 0;
      ghost var first, start := remote, used;
      for i := 0 to |files|
        invariant copied == i && used == start + 2 * i
        invariant Copied(first, remote, dest, dir, localDir, files, i, start)
        invariant Copying(first, remote, dest, dir, localDir, files[..i])
      {
        r := CopyArtifact(dest, dir, localDir, files, i, first, start);
        copied := i + 1;
        if r.Broke? {
          return;
        }
      }
      assert files[..|files|] == files;
      NoneAltered(first, dest, dir, localDir, files, start);
      r := Success;
    }

    /** The artifacts, then the manifest. */
    method Send(dest: string, dir: string, localDir: string, m: C.Manifest) returns (r: Outcome)
      requires forall a :: a in m.files ==> a.relativePath != MANIFEST
      modifies this`used, this`remote
      ensures Grows(old(remote), remote)
      ensures ManifestLast(w, old(remote)) ==> ManifestLast(w, remote)
      ensures r.Success? ==> RevisionThere(w, remote, dest, dir, m)
      ensures r.Success? <==> old(Smooth(2 * |m.files| + 2)) && Sendable(old(remote), dest, dir, localDir, m)
      ensures r == Broke(RemoteIntegrity) <==> RemoteAltered(old(remote), dest, dir, localDir, m, old(used))
      ensures r.Broke? ==> r.failure.Transfer? || r.failure.RemoteIntegrity?
    {
      ghost var first, start := remote, used;
      RanOn(start, 2 * |m.files|);
      ghost var copied;
      r, copied := CopyArtifacts(dest, dir, localDir, m.files);
      if r.Broke? {
        return;
      }
      ghost var before := remote;
      NoneAltered(first, dest, dir, localDir, m.files, start);
      ManifestRoom(first, before, dest, dir, localDir, m.files, copied);
      r := CopyAndVerify(Some(ManifestObject(m)), (dest, dir, MANIFEST), w.hash(ManifestObject(m)));
      ManifestPut(w, before, remote, dest, dir, m);
    }

    /** publish. Nothing that fails, and no interruption between two commands, leaves a manifest without its
        artifacts. */
    method Publish(dest: string, dir: string, k: Revision, row: Compaction, m: C.Manifest) returns (r: Outcome)
      requires StoredManifest(root, row) == Some(m)
      modifies this`used, this`remote
      ensures Grows(old(remote), remote)
      ensures ManifestLast(w, old(remote)) ==> ManifestLast(w, remote)
      ensures r.Success? ==> RevisionThere(w, remote, dest, dir, m)
      ensures r.Success? <==> old(Deliverable(dest, dir, k, row, m))
      ensures !C.DirectoryOk(env, root, k, row) ==>
        r == Broke(LocalIntegrity) && remote == old(remote) && used == old(used)
      ensures (exists a :: a in m.files && var dir := C.DirOf(row.manifestPath);
                 !(dir in root && a.relativePath in root[dir] && root[dir][a.relativePath].DataFile?
                   && env.hash(root[dir][a.relativePath].data) == a.sha256
                   && env.size(root[dir][a.relativePath].data) == a.bytes)) ==>
        r == Broke(LocalIntegrity) && remote == old(remote) && used == old(used)
      ensures r == Broke(LocalIntegrity) <==> !C.DirectoryOk(env, root, k, row)
      ensures r == Broke(RemoteIntegrity) <==>
        && C.DirectoryOk(env, root, k, row)
        && RemoteAltered(old(remote), dest, dir, C.DirOf(row.manifestPath), m, old(used))
      ensures r.Broke? ==> r.failure.Transfer? || r.failure.RemoteIntegrity? || r.failure.LocalIntegrity?
    {
      var intact := C.VerifyDirectory(env, root, k, row);
      if !intact {
        return Broke(LocalIntegrity);
      }
      assert forall a :: a in m.files ==>
        a.relativePath == "data-" + a.sha256 + ".parquet" && a.relativePath[0] != MANIFEST[0];
      r := Send(dest, dir, C.DirOf(row.manifestPath), m);
    }

    /** prepareRemoteDir, the attempt mark and publish. */
    method Try(u: UploadKey, why: Hive.Error, now: int, fault: Fault) returns (r: Outcome, dir: string, stop: bool)
      requires u in store.uploads && u.0 in store.compactions
      modifies this`used, this`remote, store
      ensures Grows(old(remote), remote)
      ensures ManifestLast(w, old(remote)) ==> ManifestLast(w, remote)
      ensures store.Contents() == old(store.Contents())
        || store.Contents() == MarkUploadAttempt(old(store.Contents()), u, dir, now)
      ensures !stop ==> (r.Success? <==> old(Verifiable(u, store.compactions[u.0])))
      ensures !stop ==> (r.Broke? && IsPermanent(r.failure) <==> old(Hopeless(u, store.compactions[u.0], why)))
      ensures stop ==> fault == LosesAttempt && store.Contents() == old(store.Contents())
      ensures r.Success? ==> !stop
      ensures r.Success? ==>
        && old(StoredManifest(root, store.compactions[u.0])).Some?
        && RevisionThere(w, remote, u.1, dir, old(StoredManifest(root, store.compactions[u.0])).value)
    {
      var row := store.compactions[u.0];
      var stored := StoredManifest(root, row);
      dir, stop := "", false;
      if stored.None? {
        return Broke(LocalIntegrity), dir, false;
      }
      var mapped := w.dirOf(u.1, stored.value);
      if mapped.None? {
        return Broke(Refused(why)), dir, false;
      }
      dir := mapped.value;
      if fault == LosesAttempt {
        return Broke(Refused(why)), dir, true;
      }
      store.MarkUploadAttempt(u, dir, now);
      r := Publish(u.1, dir, u.0, row, stored.value);
    }

    /** The row's new status. */
    method Settle(u: UploadKey, r: Outcome, dir: string, now: int, delay: int, never: int)
      requires u in store.uploads
      modifies store
      ensures r.Success? ==> Some(store.Contents()) == MarkUploadVerified(old(store.Contents()), u, dir, now)
      ensures r.Broke? ==> store.Contents() == MarkUploadFailed(old(store.Contents()), u,
        if IsPermanent(r.failure) then PermanentFailure else Retry, Category(r.failure),
        if IsPermanent(r.failure) then never else now + delay)
    {
      if r.Success? {
        var ok := store.MarkUploadVerified(u, dir, now);
      } else if IsPermanent(r.failure) {
        store.MarkUploadFailed(u, PermanentFailure, Category(r.failure), never);
      } else {
        store.MarkUploadFailed(u, Retry, Category(r.failure), now + delay);
      }
    }

    /** What no retry repairs, in the order in which it is met: the manifest cannot be read, its publication directory
        is refused as an invalid dataset, the local directory does not verify, or the remote answers another hash. */
    ghost predicate Hopeless(u: UploadKey, row: Compaction, why: Hive.Error) reads this {
      var m := StoredManifest(root, row);
      || m.None?
      || (w.dirOf(u.1, m.value).None? && why == Hive.DatasetInvalid)
      || (w.dirOf(u.1, m.value).Some? && !C.DirectoryOk(env, root, u.0, row))
      || (w.dirOf(u.1, m.value).Some?
          && RemoteAltered(remote, u.1, w.dirOf(u.1, m.value).value, C.DirOf(row.manifestPath), m.value, used))
    }

    /** One row of the queue, as ProcessPending handles it. It ends verified exactly when everything needed for that is
        there, and given up exactly when no retry can repair what went wrong; otherwise it is due again after the
        backoff for its number of attempts. When a write of the row fails the row is left as it was or uploading, and
        the worker stops. */
    method ProcessRow(u: UploadKey, configured: bool, why: Hive.Error, now: int, jitter: nat, never: int, fault: Fault)
      returns (ok: bool)
      requires u in store.uploads && u.0 in store.compactions
      modifies this`used, this`remote, store
      ensures Grows(old(remote), remote)
      ensures ManifestLast(w, old(remote)) ==> ManifestLast(w, remote)
      ensures fault == NoFault ==> ok
      ensures !ok ==> LeftUploading(old(store.Contents()), store.Contents(), u, now)
      ensures ok ==> OnlyRow(old(store.Contents()), store.Contents(), u)
      ensures ok && store.uploads[u].status == Verified ==>
        && old(StoredManifest(root, store.compactions[u.0])).Some?
        && RevisionThere(w, remote, u.1, store.uploads[u].remotePath,
           old(StoredManifest(root, store.compactions[u.0])).value)
      ensures ok ==> (store.uploads[u].status == Verified <==> configured && old(Verifiable(u, store.compactions[u.0])))
      ensures ok ==> store.uploads[u].status in {Verified, Retry, PermanentFailure}
      ensures ok ==> (store.uploads[u].status == PermanentFailure <==>
        configured && old(
          var row := store.compactions[u.0];
          var m := StoredManifest(root, row);
          || m.None?
          || (w.dirOf(u.1, m.value).None? && why == Hive.DatasetInvalid)
          || (w.dirOf(u.1, m.value).Some? && !C.DirectoryOk(env, root, u.0, row))
          || (w.dirOf(u.1, m.value).Some?
              && RemoteAltered(remote, u.1, w.dirOf(u.1, m.value).value, C.DirOf(row.manifestPath), m.value, used))))
      ensures ok && store.uploads[u].status == Retry ==>
        store.uploads[u].nextAttemptAt == now + jitter % (BackoffMaximum(old(store.uploads[u].attempts) + 1) + 1)
      ensures ok ==> forall t :: Workable(store.Contents(), u, t) <==>
        store.uploads[u].status == Retry && store.uploads[u].nextAttemptAt <= t
      ensures DbOk(old(store.Contents())) && RowOk(old(store.Contents()), u.1, u) ==> DbOk(store.Contents())
    {
      ghost var db := store.Contents();
      var delay := jitter % (BackoffMaximum(store.uploads[u].attempts + 1) + 1);
      var r, dir, stop := Broke(DestinationNotConfigured), "", false;
      if configured {
        r, dir, stop := Try(u, why, now, fault);
      }
      assert LeftAt(db, store.Contents(), u, dir, now);
      if stop || fault == LosesVerdict {
        LeftInOrder(db, store.Contents(), u, dir, now);
        return false;
      }
      Conclude(u, r, dir, now, delay, never, db);
      ok := true;
    }

    /** The row's new status, seen from the tables before the attempt. */
    method Conclude(u: UploadKey, r: Outcome, dir: string, now: int, delay: int, never: int, ghost db: DB)
      requires u in db.uploads && u in store.uploads && LeftAt(db, store.Contents(), u, dir, now)
      modifies store
      ensures OnlyRow(db, store.Contents(), u) && store.uploads[u].status in {Verified, Retry, PermanentFailure}
      ensures store.uploads[u].status == Verified <==> r.Success?
      ensures store.uploads[u].status == PermanentFailure <==> r.Broke? && IsPermanent(r.failure)
      ensures store.uploads[u].status == Retry ==> store.uploads[u].nextAttemptAt == now + delay
      ensures forall t :: Workable(store.Contents(), u, t) <==>
        store.uploads[u].status == Retry && store.uploads[u].nextAttemptAt <= t
      ensures r.Success? ==> store.uploads[u].remotePath == dir
      ensures DbOk(db) && RowOk(db, u.1, u) ==> DbOk(store.Contents())
    {
      ghost var between := store.Contents();
      Settle(u, r, dir, now, delay, never);
      ghost var next := if r.Broke? && IsPermanent(r.failure) then never else now + delay;
      RowProcessed(db, between, store.Contents(), u, r, dir, now, next);
      if DbOk(db) && RowOk(db, u.1, u) { RowInOrder(db, between, store.Contents(), u, r, dir, now, next); }
    }

    /** ProcessPending: the due rows of one destination, in order, until a write fails or `cancelled` says that the
        context is done before a row. */
    method ProcessPending(dest: string, pending: seq<UploadKey>, configured: bool, why: Hive.Error, now: int,
                          jitter: nat -> nat, never: int, cancelled: nat -> bool, faults: nat -> Fault)
      returns (processed: nat, ok: bool)
      requires Distinct(pending) && forall u :: u in pending <==>
        && u.1 == dest && u in store.uploads && store.uploads[u].nextAttemptAt <= now
        && store.uploads[u].status in {Pending, Retry, Uploading}
      requires DbOk(store.Contents()) && ManifestLast(w, remote)
      modifies this`used, this`remote, store
      ensures Grows(old(remote), remote) && ManifestLast(w, remote) && DbOk(store.Contents())
      ensures processed <= |pending| && (ok ==> processed == |pending|)
      ensures (forall n :: 0 <= n < |pending| ==> !cancelled(n) && faults(n) == NoFault) ==> ok
      ensures Processed(old(store.Contents()), store.Contents(), pending[..processed])
        || (!ok && processed < |pending| && Interrupted(old(store.Contents()), store.Contents(), pending[..processed],
           pending[processed], now))
      ensures AllProven(w, root, old(store.Contents()), store.Contents(), remote)
    {
      ghost var db, first := store.Contents(), remote;
      assert AllProven(w, root, db, db, remote);
      processed, ok := 0, true;
      while processed < |pending|
        invariant processed <= |pending|
        invariant Grows(first, remote) && ManifestLast(w, remote) && DbOk(store.Contents())
        invariant Processed(db, store.Contents(), pending[..processed])
        invariant AllProven(w, root, db, store.Contents(), remote)
      {
        if cancelled(processed) {
          return processed, false;
        }
        Turn(db, dest, pending, processed, now);
        ok := ProcessNext(dest, db, first, pending[..processed], pending[processed], configured, why, now,
                          jitter(processed), never, faults(processed));
        if !ok {
          return;
        }
        processed := processed + 1;
      }
      ok := true;
    }

    method ProcessNext(dest: string, ghost db: DB, ghost first: map<Address, Object>, ghost done: seq<UploadKey>,
                       u: UploadKey, configured: bool, why: Hive.Error, now: int, jitter: nat, never: int, fault: Fault)
      returns (ok: bool)
      requires u !in done && u.1 == dest && Workable(db, u, now)
      requires DbOk(store.Contents()) && ManifestLast(w, remote) && Grows(first, remote)
      requires Processed(db, store.Contents(), done) && AllProven(w, root, db, store.Contents(), remote)
      modifies this`used, this`remote, store
      ensures Grows(first, remote) && ManifestLast(w, remote) && DbOk(store.Contents())
      ensures fault == NoFault ==> ok
      ensures if ok then Processed(db, store.Contents(), done + [u])
        else Interrupted(db, store.Contents(), done, u, now)
      ensures AllProven(w, root, db, store.Contents(), remote)
    {
      ghost var before, there := store.Contents(), remote;
      DueRow(db, before, dest, done, u, now);
      ok := ProcessRow(u, configured, why, now, jitter, never, fault);
      if ok {
        RowProven(w, root, db, before, store.Contents(), there, remote, u);
        ProcessedMore(db, before, store.Contents(), done, u);
      } else {
        LeftProven(w, root, db, before, store.Contents(), there, remote, u, now);
      }
    }
  }

  /** The row is as it was, or marked as uploading to the directory. */
  predicate LeftAt(db: DB, e: DB, u: UploadKey, dir: string, now: int) {
    e == db || e == MarkUploadAttempt(db, u, dir, now)
  }

  lemma LeftInOrder(db: DB, e: DB, u: UploadKey, dir: string, now: int)
    requires LeftAt(db, e, u, dir, now)
    ensures DbOk(db) && RowOk(db, u.1, u) ==> DbOk(e)
  {
    if DbOk(db) && RowOk(db, u.1, u) { AttemptMoves(db, u.1, u, dir, now); }
  }

  ghost predicate LeftUploading(db: DB, e: DB, u: UploadKey, now: int) {
    exists dir :: LeftAt(db, e, u, dir, now)
  }

  /** The rows of `done` were settled, and the next one was left in hand. */
  ghost predicate Interrupted(db: DB, e: DB, done: seq<UploadKey>, u: UploadKey, now: int) {
    exists between :: Processed(db, between, done) && LeftUploading(between, e, u, now)
  }

  lemma LeftProven(w: World, root: C.Tree, db: DB, before: DB, after: DB, there: map<Address, Object>,
                   remote: map<Address, Object>,
                   u: UploadKey, now: int)
    requires AllProven(w, root, db, before, there) && Grows(there, remote) && LeftUploading(before, after, u, now)
    requires u in before.uploads && u.0 in before.compactions && before.uploads[u].status != Verified
    ensures AllProven(w, root, db, after, remote)
  {
    var dir :| LeftAt(before, after, u, dir, now);
    if after == before {
      RowProven(w, root, db, before, before, there, remote, u);
    } else {
      AttemptOnly(before, u, dir, now);
      RowProven(w, root, db, before, after, there, remote, u);
    }
  }

  lemma Turn(db: DB, dest: string, pending: seq<UploadKey>, n: nat, now: int)
    requires Distinct(pending) && n < |pending| && forall u :: u in pending ==> u.1 == dest && Workable(db, u, now)
    ensures pending[n] !in pending[..n] && pending[..n+1] == pending[..n] + [pending[n]]
    ensures pending[n].1 == dest && Workable(db, pending[n], now)
  {
    assert pending[n] in pending;
  }

  /** The rows of `done` were settled one way or the other, and no other row was touched. */
  predicate Processed(db: DB, e: DB, done: seq<UploadKey>) {
    && SamePaths(db, e) && e.uploads.Keys == db.uploads.Keys
    && (forall u :: u in db.uploads && u !in done ==> u in e.uploads && e.uploads[u] == db.uploads[u])
    && (forall u :: u in done ==> u in e.uploads && e.uploads[u].status in {Verified, Retry, PermanentFailure})
  }

  lemma ProcessedMore(db: DB, before: DB, after: DB, done: seq<UploadKey>, u: UploadKey)
    requires Processed(db, before, done) && OnlyRow(before, after, u)
    requires after.uploads[u].status in {Verified, Retry, PermanentFailure}
    ensures Processed(db, after, done + [u])
  {
  }

  lemma DueRow(db: DB, before: DB, dest: string, done: seq<UploadKey>, u: UploadKey, now: int)
    requires Processed(db, before, done) && u !in done && u.1 == dest && Workable(db, u, now) && DbOk(before)
    ensures RowOk(before, dest, u) && u.0 in before.compactions
  {
    assert before.uploads[u] == db.uploads[u];
  }

  /** One row moved, no path changed. */
  predicate OnlyRow(db: DB, e: DB, u: UploadKey) {
    && u in e.uploads && u in db.uploads && e.uploads == db.uploads[u := e.uploads[u]] && SamePaths(db, e)
  }

  ghost predicate AllProven(w: World, root: C.Tree, db: DB, e: DB, remote: map<Address, Object>) {
    forall u :: u in e.uploads && e.uploads[u].status == Verified ==> Proven(w, root, db, e, remote, u)
  }

  lemma RowProven(w: World, root: C.Tree, db: DB, before: DB, after: DB, there: map<Address, Object>,
                  remote: map<Address, Object>, u: UploadKey)
    requires AllProven(w, root, db, before, there) && Grows(there, remote) && OnlyRow(before, after, u)
    requires u.0 in before.compactions
    requires after.uploads[u].status == Verified ==>
      && StoredManifest(root, before.compactions[u.0]).Some?
      && RevisionThere(w, remote, u.1, after.uploads[u].remotePath, StoredManifest(root, before.compactions[u.0]).value)
    ensures AllProven(w, root, db, after, remote)
  {
    forall v | v in after.uploads && after.uploads[v].status == Verified ensures Proven(w, root, db, after, remote, v) {
      if v != u && !(v in db.uploads && after.uploads[v] == db.uploads[v]) {
        var m := StoredManifest(root, before.compactions[v.0]).value;
        RevisionGrows(w, there, remote, v.1, before.uploads[v].remotePath, m);
      }
    }
  }

  lemma AttemptOnly(db: DB, u: UploadKey, dir: string, now: int)
    requires u in db.uploads
    ensures OnlyRow(db, MarkUploadAttempt(db, u, dir, now), u)
  {
  }

  lemma VerifyOnly(db: DB, u: UploadKey, dir: string, now: int)
    requires u in db.uploads
    ensures MarkUploadVerified(db, u, dir, now).Some?
    ensures var e := MarkUploadVerified(db, u, dir, now).value;
      OnlyRow(db, e, u) && e.uploads[u].status == Verified && e.uploads[u].remotePath == dir
  {
  }

  lemma FailOnly(db: DB, u: UploadKey, status: Status, detail: string, next: int)
    requires u in db.uploads
    ensures var e := MarkUploadFailed(db, u, status, detail, next);
      OnlyRow(db, e, u) && e.uploads[u].status == status && e.uploads[u].nextAttemptAt == next
  {
  }

  lemma OnlyRowTwice(a: DB, b: DB, c: DB, u: UploadKey)
    requires OnlyRow(a, b, u) && OnlyRow(b, c, u)
    ensures OnlyRow(a, c, u)
  {
  }

  lemma RowProcessed(db: DB, between: DB, after: DB, u: UploadKey, r: Outcome, dir: string, now: int, next: int)
    requires u in db.uploads
    requires between == db || between == MarkUploadAttempt(db, u, dir, now)
    requires r.Success? ==> Some(after) == MarkUploadVerified(between, u, dir, now)
    requires r.Broke? ==>
      after == MarkUploadFailed(between, u, if IsPermanent(r.failure) then PermanentFailure else Retry,
                                Category(r.failure), next)
    ensures OnlyRow(db, after, u) && after.uploads[u].status in {Verified, Retry, PermanentFailure}
    ensures after.uploads[u].status == Verified <==> r.Success?
    ensures after.uploads[u].status == PermanentFailure <==> r.Broke? && IsPermanent(r.failure)
    ensures r.Broke? ==> after.uploads[u].nextAttemptAt == next
    ensures r.Success? ==> after.uploads[u].remotePath == dir
  {
    AttemptOnly(db, u, dir, now);
    assert OnlyRow(db, between, u);
    if r.Success? {
      VerifyOnly(between, u, dir, now);
    } else {
      FailOnly(between, u, if IsPermanent(r.failure) then PermanentFailure else Retry, Category(r.failure), next);
    }
    OnlyRowTwice(db, between, after, u);
  }

  lemma RowInOrder(db: DB, between: DB, after: DB, u: UploadKey, r: Outcome, dir: string, now: int, next: int)
    requires DbOk(db) && RowOk(db, u.1, u)
    requires between == db || between == MarkUploadAttempt(db, u, dir, now)
    requires r.Success? ==> Some(after) == MarkUploadVerified(between, u, dir, now)
    requires r.Broke? ==>
      after == MarkUploadFailed(between, u, if IsPermanent(r.failure) then PermanentFailure else Retry,
                                Category(r.failure), next)
    ensures DbOk(after)
  {
    AttemptMoves(db, u.1, u, dir, now);
    AttemptedRow(db, between, u, dir, now);
    if r.Success? {
      VerifyMoves(between, u.1, u, dir, now);
    } else {
      FailMoves(between, u.1, u, if IsPermanent(r.failure) then PermanentFailure else Retry, Category(r.failure), next);
    }
  }

  lemma AttemptedRow(db: DB, between: DB, u: UploadKey, dir: string, now: int)
    requires RowOk(db, u.1, u) && (between == db || between == MarkUploadAttempt(db, u, dir, now))
    ensures RowOk(between, u.1, u)
  {
  }

  lemma DataPut(w: World, before: map<Address, Object>, after: map<Address, Object>, at: Address, o: Object)
    requires after == before || (at !in before && o.DataObject? && after == before[at := o])
    ensures Grows(before, after)
    ensures ManifestLast(w, before) ==> ManifestLast(w, after)
  {
    if ManifestLast(w, before) {
      forall a: Address | a in after && a.2 == MANIFEST && after[a].ManifestObject?
        ensures ArtifactsThere(w, after, a.0, a.1, after[a].m.files)
      {
        GrowsThere(w, before, after, a.0, a.1, after[a].m.files);
      }
    }
  }

  lemma ManifestPut(w: World, before: map<Address, Object>, after: map<Address, Object>, dest: string, dir: string,
                    m: C.Manifest)
    requires ArtifactsThere(w, before, dest, dir, m.files)
    requires after == before || ((dest, dir, MANIFEST) !in before
      && after == before[(dest, dir, MANIFEST) := ManifestObject(m)])
    ensures Grows(before, after) && ArtifactsThere(w, after, dest, dir, m.files)
    ensures ManifestLast(w, before) ==> ManifestLast(w, after)
  {
    GrowsThere(w, before, after, dest, dir, m.files);
    if ManifestLast(w, before) {
      forall a: Address | a in after && a.2 == MANIFEST && after[a].ManifestObject?
        ensures ArtifactsThere(w, after, a.0, a.1, after[a].m.files)
      {
        if a in before { GrowsThere(w, before, after, a.0, a.1, after[a].m.files); }
      }
    }
  }
}
