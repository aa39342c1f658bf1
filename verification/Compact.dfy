/** Compaction of one day into an immutable revision directory, and the check every stored revision must pass. */
module Compact {
  import opened Prelude
  import opened Artifact
  import opened Tallies
  import D = Destinations
  import T = Tables
  import StateLaws
  import StateStore
  import Text

  const MANIFEST_VERSION := 1
  const FORMAT_VERSION := 1
  const NESTED_SCHEMA := 1
  const FLATTENED_SCHEMA := 2
  const MANIFEST_NAME: string := "manifest.json"

  datatype FileEntry = FileEntry(relativePath: string, bytes: nat, sha256: string, rows: int, entities: int)

  datatype InputCapture = InputCapture(id: string, sha256: string, bytes: int)

  datatype DatasetStatus = Ready | NoCapturedResponses | Unknown(text: string)

  datatype Manifest = Manifest(manifestVersion: int, datasetStatus: DatasetStatus, revision: T.Revision,
    expectedKind: string,
                               sanitizedUrl: string, formatVersion: int, schemaVersion: int, predecessor: Option<int>,
                               createdAt: int, capturedResponses: int, entityTotal: int,
                                 stopTimeUpdateTotal: Option<int>,
                               tally: Tally, files: seq<FileEntry>, inputs: seq<InputCapture>, excluded: seq<Exclusion>,
                               requiredDestinations: seq<string>, destinations: seq<D.Destination>)

  datatype File = ManifestFile(m: Manifest) | DataFile(data: Data)

  /** The regular files of the storage root, by directory and name. */
  type Tree = map<string, map<string, File>>

  datatype Config = Config(destinations: seq<D.Destination>, allowLocalOnlyCleanup: bool)

  datatype Stream = Stream(expectedKind: string, sanitizedUrl: string)

  // ---- paths ----

  function Itoa(n: int): string {
    if n < 0 then "-" + Text.Decimal(-n) else Text.Decimal(n)
  }

  function Segments(k: T.Revision): seq<string> {
    ["parquet", "format=v1", "source=" + k.day.stream.source, "stream=" + k.day.stream.stream, "date=" + k.day.date,
     "revision=" + Itoa(k.number)]
  }

  function RevisionDirectory(k: T.Revision): string {
    Text.JoinChar(Segments(k), '/')
  }

  /** The layout of the archive, down to the decimal revision number. */
  lemma DirectoryLayout(k: T.Revision)
    ensures RevisionDirectory(k) == "parquet/format=v1/" + ("source=" + k.day.stream.source + "/"
      + ("stream=" + k.day.stream.stream + "/" + ("date=" + k.day.date + "/" + ("revision=" + Itoa(k.number)))))
    ensures Itoa(0) == "0" && Itoa(7) == "7" && Itoa(10) == "10" && Itoa(123) == "123"
  {
    var a, b, c, d := "source=" + k.day.stream.source, "stream=" + k.day.stream.stream, "date=" + k.day.date,
                      "revision=" + Itoa(k.number);
    assert Segments(k)[1..] == ["format=v1", a, b, c, d];
    assert Segments(k)[1..][1..] == [a, b, c, d] && [a, b, c, d][1..] == [b, c, d] && [b, c, d][1..] == [c, d];
    var rest := a + "/" + (b + "/" + (c + "/" + d));
    assert Text.JoinChar([c, d], '/') == c + "/" + d by { assert [c, d][1..] == [d]; }
    assert Text.JoinChar([b, c, d], '/') == b + "/" + (c + "/" + d);
    assert Text.JoinChar([a, b, c, d], '/') == a + "/" + (b + "/" + (c + "/" + d));
    assert Text.JoinChar(Segments(k)[1..], '/') == "format=v1" + "/" + rest;
    assert RevisionDirectory(k) == "parquet" + "/" + Text.JoinChar(Segments(k)[1..], '/');
    FrontOf(rest);
    assert Text.Decimal(12) == "12" && Text.Decimal(123) == "123";
  }

  lemma FrontOf(rest: string)
    ensures "parquet" + "/" + ("format=v1" + "/" + rest) == "parquet/format=v1/" + rest
  {
  }

  predicate PathSafe(k: T.Revision) {
    '/' !in k.day.stream.source && '/' !in k.day.stream.stream && '/' !in k.day.date
  }

  lemma ItoaInjective(n: int, m: int)
    requires Itoa(n) == Itoa(m)
    ensures n == m
  {
    ItoaSign(n);
    ItoaSign(m);
    if n < 0 {
      assert Itoa(n)[1..] == Text.Decimal(-n) && Itoa(m)[1..] == Text.Decimal(-m);
      Text.DecimalInjective(-n, -m);
    } else {
      Text.DecimalInjective(n, m);
    }
  }

  lemma ItoaSign(n: int)
    ensures |Itoa(n)| > 0 && (Itoa(n)[0] == '-' <==> n < 0)
  {
  }

  lemma SegmentsSafe(k: T.Revision)
    requires PathSafe(k)
    ensures forall p :: p in Segments(k) ==> '/' !in p
  {
    assert '/' !in Itoa(k.number);
  }

  /** Two revisions never share a directory. */
  lemma DirectoryNamesOneRevision(j: T.Revision, k: T.Revision)
    requires PathSafe(j) && PathSafe(k) && RevisionDirectory(j) == RevisionDirectory(k)
    ensures j == k
  {
    SegmentsSafe(j);
    SegmentsSafe(k);
    Text.SplitJoin(Segments(j), '/');
    Text.SplitJoin(Segments(k), '/');
    var a, b := Segments(j), Segments(k);
    assert a[2][7..] == j.day.stream.source && b[2][7..] == k.day.stream.source;
    assert a[3][7..] == j.day.stream.stream && b[3][7..] == k.day.stream.stream;
    assert a[4][5..] == j.day.date && b[4][5..] == k.day.date;
    assert a[5][9..] == Itoa(j.number) && b[5][9..] == Itoa(k.number);
    ItoaInjective(j.number, k.number);
  }

  function DirOf(path: string): string {
    path[..Text.LastIndexOf(path, '/')]
  }

  function NameOf(path: string): string {
    var i := Text.LastIndexOf(path, '/');
    if i < |path| then path[i+1..] else path
  }

  function PathIn(dir: string, name: string): string {
    dir + ['/'] + name
  }

  lemma PathInParts(dir: string, name: string)
    requires '/' !in name
    ensures DirOf(PathIn(dir, name)) == dir && NameOf(PathIn(dir, name)) == name
  {
    Text.LastIndexOfJoined(dir, name, '/');
    assert PathIn(dir, name)[..|dir|] == dir && PathIn(dir, name)[|dir|+1..] == name;
  }

  function FileAt(root: Tree, dir: string, name: string): Option<File> {
    if dir in root && name in root[dir] then Some(root[dir][name]) else None
  }

  predicate IsBasename(name: string) {
    name != "" && '/' !in name
  }

  // ---- what VerifyDirectory accepts ----

  predicate IdentityOk(m: Manifest, k: T.Revision, row: T.Compaction) {
    && m.manifestVersion == MANIFEST_VERSION && m.formatVersion == FORMAT_VERSION
    && (m.schemaVersion == NESTED_SCHEMA || m.schemaVersion == FLATTENED_SCHEMA)
    && m.revision == k
    && |m.inputs| == m.capturedResponses == row.rows && m.entityTotal == row.entities
  }

  /** Exclusions are distinct inputs, each with a known reason. */
  predicate ExclusionsOk(excluded: seq<Exclusion>, inputs: seq<InputCapture>) {
    && (forall i, j :: 0 <= i < j < |excluded| ==> excluded[i].id != excluded[j].id)
    && (forall x :: x in excluded ==>
        && x.id != "" && x.reason in {RAW_MISSING, HASH_MISMATCH, READ_ERROR} && exists c ::
           c in inputs && c.id == x.id)
  }

  predicate StatusOk(m: Manifest) {
    match m.datasetStatus
    case Ready => m.capturedResponses > |m.excluded| && |m.files| == 1
    case NoCapturedResponses => m.capturedResponses == 0 && |m.files| == 0 && |m.excluded| == 0
    case Unknown(_) => false
  }

  /** expectedArtifactRows: the stop time update total of a flattened revision, the included captures of a nested
      one. */
  function ExpectedRows(m: Manifest): Option<int> {
    if m.schemaVersion == FLATTENED_SCHEMA then (if m.expectedKind == "trip_update" then m.stopTimeUpdateTotal
      else None)
    else Some(m.capturedResponses - |m.excluded|)
  }

  predicate ArtifactOk(env: Env, root: Tree, dir: string, m: Manifest, row: T.Compaction, a: FileEntry) {
    && IsBasename(a.relativePath)
    && (match FileAt(root, dir, a.relativePath)
        case Some(DataFile(data)) => env.hash(data) == a.sha256 && env.size(data) == a.bytes
        case _ => false)
    && a.relativePath == "data-" + a.sha256 + ".parquet"
    && ExpectedRows(m) == Some(a.rows) && a.entities == m.entityTotal
    && row.dataPath == PathIn(row.directory, a.relativePath) && row.dataSha256 == a.sha256 && row.dataBytes == a.bytes
  }

  predicate ManifestOk(env: Env, root: Tree, dir: string, m: Manifest, k: T.Revision, row: T.Compaction) {
    && IdentityOk(m, k, row) && ExclusionsOk(m.excluded, m.inputs) && StatusOk(m)
    && D.SnapshotOk(m.destinations, m.requiredDestinations)
    && ExpectedRows(m).Some?
    && forall a :: a in m.files ==> ArtifactOk(env, root, dir, m, row, a)
  }

  predicate DirectoryOk(env: Env, root: Tree, k: T.Revision, row: T.Compaction) {
    match FileAt(root, DirOf(row.manifestPath), NameOf(row.manifestPath))
    case Some(ManifestFile(m)) => ManifestOk(env, root, DirOf(row.manifestPath), m, k, row)
    case _ => false
  }

  method VerifyExclusions(excluded: seq<Exclusion>, inputCaptures: seq<InputCapture>) returns (ok: bool)
    ensures ok <==> ExclusionsOk(excluded, inputCaptures)
  {
    var inputs := set c | c in inputCaptures :: c.id;
    var seen := {};
    for i := 0 to |excluded|
      invariant ExclusionsOk(excluded[..i], inputCaptures)
      invariant seen == set x | x in excluded[..i] :: x.id
    {
      var x := excluded[i];
      assert excluded[..i+1] == excluded[..i] + [x];
      assert x in excluded;
      if x.id == "" || x.reason == "" || x.id in seen || x.id !in inputs {
        assert x.id in seen ==> exists j :: 0 <= j < i && excluded[j].id == x.id;
        return false;
      }
      if x.reason != RAW_MISSING && x.reason != HASH_MISMATCH && x.reason != READ_ERROR {
        return false;
      }
      seen := seen + {x.id};
    }
    assert excluded[..|excluded|] == excluded;
    return true;
  }

  method VerifyArtifacts(env: Env, root: Tree, dir: string, m: Manifest, row: T.Compaction) returns (ok: bool)
    ensures ok <==> forall a :: a in m.files ==> ArtifactOk(env, root, dir, m, row, a)
  {
    for i := 0 to |m.files|
      invariant forall a :: a in m.files[..i] ==> ArtifactOk(env, root, dir, m, row, a)
    {
      var a := m.files[i];
      assert a in m.files && m.files[..i+1] == m.files[..i] + [a];
      var found := FileAt(root, dir, a.relativePath);
      if !IsBasename(a.relativePath) || found.None? || found.value.ManifestFile? {
        return false;
      }
      var data := found.value.data;
      if env.hash(data) != a.sha256 || env.size(data) != a.bytes {
        return false;
      }
      if a.relativePath != "data-" + a.sha256 + ".parquet" || ExpectedRows(m) != Some(a.rows)
        || a.entities != m.entityTotal {
        return false;
      }
      if row.dataPath != PathIn(row.directory, a.relativePath) || row.dataSha256 != a.sha256
        || row.dataBytes != a.bytes {
        return false;
      }
    }
    assert m.files[..|m.files|] == m.files;
    return true;
  }

  /** VerifyDirectory accepts a directory exactly when its manifest is there and: speaks of this revision in a known
      version; agrees with the row on the counts; excludes distinct inputs for known reasons; has the files its status
      calls for; carries a consistent destination snapshot; and each file it lists is there with the recorded hash and
      size, under its hash's name, with the row and entity counts, and as the row says. */
  method VerifyDirectory(env: Env, root: Tree, k: T.Revision, row: T.Compaction) returns (ok: bool)
    ensures ok <==> DirectoryOk(env, root, k, row)
    ensures ok <==>
      var dir, name := DirOf(row.manifestPath), NameOf(row.manifestPath);
      && dir in root && name in root[dir] && root[dir][name].ManifestFile?
      && var m := root[dir][name].m;
         && m.manifestVersion == 1 && m.formatVersion == 1 && (m.schemaVersion == 1 || m.schemaVersion == 2)
         && m.revision == k
         && |m.inputs| == m.capturedResponses && m.capturedResponses == row.rows && m.entityTotal == row.entities
         && (forall i, j :: 0 <= i < j < |m.excluded| ==> m.excluded[i].id != m.excluded[j].id)
         && (forall x :: x in m.excluded ==>
             && x.id != "" && x.reason in {"raw_missing", "hash_mismatch", "read_error"}
             && exists c :: c in m.inputs && c.id == x.id)
         && (m.datasetStatus.Ready? ==> m.capturedResponses > |m.excluded| && |m.files| == 1)
         && (m.datasetStatus.NoCapturedResponses? ==> m.capturedResponses == |m.files| == |m.excluded| == 0)
         && !m.datasetStatus.Unknown?
         && (m.destinations != [] ==>
             && (forall d :: d in m.destinations ==> d.id != "")
             && (forall i, j :: 0 <= i < j < |m.destinations| ==> m.destinations[i].id != m.destinations[j].id)
             && D.Joined(D.Sorted(D.RequiredIds(m.destinations))) == D.Joined(D.Sorted(m.requiredDestinations)))
         && (m.schemaVersion == 2 ==> m.expectedKind == "trip_update" && m.stopTimeUpdateTotal.Some?)
         && (forall a :: a in m.files ==>
             && a.relativePath != "" && '/' !in a.relativePath && a.relativePath == "data-" + a.sha256 + ".parquet"
             && a.relativePath in root[dir] && root[dir][a.relativePath].DataFile?
             && env.hash(root[dir][a.relativePath].data) == a.sha256
             && env.size(root[dir][a.relativePath].data) == a.bytes
             && (m.schemaVersion == 1 ==> a.rows == m.capturedResponses - |m.excluded|)
             && (m.schemaVersion == 2 ==> Some(a.rows) == m.stopTimeUpdateTotal)
             && a.entities == m.entityTotal
             && row.dataPath == row.directory + ['/'] + a.relativePath
             && row.dataSha256 == a.sha256 && row.dataBytes == a.bytes)
  {
    var dir := DirOf(row.manifestPath);
    var file := FileAt(root, dir, NameOf(row.manifestPath));
    if file.None? || file.value.DataFile? {
      return false;
    }
    var m := file.value.m;
    if !IdentityOk(m, k, row) {
      return false;
    }
    ok := VerifyExclusions(m.excluded, m.inputs);
    if !ok || !StatusOk(m) {
      return false;
    }
    ok := D.VerifySnapshot(m.destinations, m.requiredDestinations);
    if !ok || ExpectedRows(m).None? {
      return false;
    }
    ok := VerifyArtifacts(env, root, dir, m, row);
  }

  // ---- what Compact writes ----

  function InputsOf(captures: seq<Capture>): (inputs: seq<InputCapture>)
    ensures |inputs| == |captures|
  {
    seq(|captures|, i requires 0 <= i < |captures| =>
      InputCapture(captures[i].id, captures[i].sha256, captures[i].decodedLength))
  }

  function DataOf(env: Env, kind: string, captures: seq<Capture>): Data {
    if kind == "trip_update" then Flat(FlatRows(env, captures)) else Nested(NestedRows(env, captures))
  }

  function SchemaVersionForKind(kind: string): int {
    if kind == "trip_update" then FLATTENED_SCHEMA else NESTED_SCHEMA
  }

  function ArtifactRows(env: Env, kind: string, captures: seq<Capture>): int {
    if kind == "trip_update" then StopSum(env, captures) else |Included(env, captures)|
  }

  function ArtifactName(env: Env, data: Data): string {
    "data-" + env.hash(data) + ".parquet"
  }

  function Entry(env: Env, kind: string, captures: seq<Capture>): FileEntry {
    var data := DataOf(env, kind, captures);
    FileEntry(ArtifactName(env, data), env.size(data), env.hash(data), ArtifactRows(env, kind, captures),
              EntityTotal(Included(env, captures)))
  }

  function ManifestOf(env: Env, cfg: Config, stream: Stream, k: T.Revision, captures: seq<Capture>, url: string,
                      tally: Tally, now: int): Manifest
  {
    Manifest(MANIFEST_VERSION, if |captures| == 0 then NoCapturedResponses else Ready, k, stream.expectedKind, url,
             FORMAT_VERSION, SchemaVersionForKind(stream.expectedKind), if k.number > 1 then Some(k.number - 1)
               else None, now,
             |captures|, EntityTotal(Included(env, captures)),
             if stream.expectedKind == "trip_update" then Some(StopSum(env, captures)) else None, tally,
             if |captures| == 0 then [] else [Entry(env, stream.expectedKind, captures)], InputsOf(captures),
             Exclusions(env, captures), D.Sorted(D.RequiredIds(cfg.destinations)), D.SortDestinations(cfg.destinations))
  }

  /** An input that the artifact leaves out is listed like any other; left out are exactly the payloads that cannot be
      read or do not have the recorded hash. */
  lemma ExcludedStaysListed(env: Env, cfg: Config, stream: Stream, k: T.Revision, captures: seq<Capture>, url: string,
                            tally: Tally, now: int, c: Capture)
    requires DistinctIds(captures) && c in captures
    ensures var m := ManifestOf(env, cfg, stream, k, captures, url, tally, now);
      && InputCapture(c.id, c.sha256, c.decodedLength) in m.inputs
      && (NamedInExclusions(m.excluded, c.id) <==> !Readable(env, c))
  {
    var i :| 0 <= i < |captures| && captures[i] == c;
    assert InputsOf(captures)[i] == InputCapture(c.id, c.sha256, c.decodedLength);
    Partition(env, captures);
    if !Readable(env, c) { assert Exclusion(c.id, ReadVerified(env, c).reason) in Exclusions(env, captures); }
    assert forall d :: d in captures && d.id == c.id ==> d == c;
  }

  /** Of two captures the second cannot be read: the revision holds the first and lists both. */
  lemma ExcludedExample(cfg: Config, stream: Stream, k: T.Revision, tally: Tally)
    ensures var env := Env(path => if path == "p" then Content([]) else Unreadable, bytes => "h", bytes => None,
                           data => "d", data => 0);
      var good := Capture("a", "s", "t", "2026-08-11", "UTC", "p", "u", 0, 0, "h", 0, true, "valid", [], None, None);
      var bad := good.(id := "b", rawPath := "q");
      var m := ManifestOf(env, cfg, stream, k, [good, bad], "u", tally, 0);
      && Included(env, [good, bad]) == [good]
      && InputCapture("b", "h", 0) in m.inputs && NamedInExclusions(m.excluded, "b")
  {
    var env := Env(path => if path == "p" then Content([]) else Unreadable, bytes => "h", bytes => None,
                   data => "d", data => 0);
    var good := Capture("a", "s", "t", "2026-08-11", "UTC", "p", "u", 0, 0, "h", 0, true, "valid", [], None, None);
    var bad := good.(id := "b", rawPath := "q");
    assert "p"[0] != "q"[0] && "a"[0] != "b"[0];
    assert [good, bad][..1] == [good] && [good][..0] == [];
    assert Readable(env, good) && !Readable(env, bad);
    assert Included(env, [good]) == Included(env, []) + [good];
    assert Included(env, [good, bad]) == Included(env, [good]) + [];
    ExcludedStaysListed(env, cfg, stream, k, [good, bad], "u", tally, 0, bad);
  }

  function FilesOf(env: Env, kind: string, captures: seq<Capture>, m: Manifest): map<string, File> {
    if |captures| == 0 then map[MANIFEST_NAME := ManifestFile(m)]
    else
      var data := DataOf(env, kind, captures);
      map[ArtifactName(env, data) := DataFile(data)][MANIFEST_NAME := ManifestFile(m)]
  }

  /** What a manifest says of its revision and its inputs. */
  lemma ManifestSays(env: Env, cfg: Config, stream: Stream, k: T.Revision, captures: seq<Capture>, url: string,
                     tally: Tally, now: int)
    ensures var m := ManifestOf(env, cfg, stream, k, captures, url, tally, now);
      && m.manifestVersion == 1 && m.formatVersion == 1 && m.revision == k && m.createdAt == now
      && m.expectedKind == stream.expectedKind && m.sanitizedUrl == url && m.tally == tally
      && m.schemaVersion == (if stream.expectedKind == "trip_update" then 2 else 1)
      && m.predecessor == (if k.number > 1 then Some(k.number - 1) else None)
      && m.datasetStatus == (if |captures| == 0 then NoCapturedResponses else Ready)
      && m.capturedResponses == |m.inputs| && |m.inputs| == |captures|
      && (forall i :: 0 <= i < |captures| ==>
          m.inputs[i] == InputCapture(captures[i].id, captures[i].sha256, captures[i].decodedLength))
      && (stream.expectedKind != "trip_update" ==> m.stopTimeUpdateTotal == None)
  {
  }

  /** And of its one file: it is named after its hash, and has the rows, entities and size it is said to have. */
  lemma ManifestSaysOfFile(env: Env, cfg: Config, stream: Stream, k: T.Revision, captures: seq<Capture>, url: string,
                           tally: Tally, now: int)
    ensures var m := ManifestOf(env, cfg, stream, k, captures, url, tally, now);
      var files := FilesOf(env, stream.expectedKind, captures, m);
      && "manifest.json" in files && files["manifest.json"] == ManifestFile(m)
      && if |captures| == 0 then
           && m.files == [] && m.excluded == [] && m.entityTotal == 0 && files.Keys == {"manifest.json"}
           && (stream.expectedKind == "trip_update" ==> m.stopTimeUpdateTotal == Some(0))
         else
           && |m.files| == 1
           && var a := m.files[0];
              && a.relativePath == "data-" + a.sha256 + ".parquet" && a.entities == m.entityTotal
              && files.Keys == {"manifest.json", a.relativePath} && files[a.relativePath].DataFile?
              && env.hash(files[a.relativePath].data) == a.sha256 && env.size(files[a.relativePath].data) == a.bytes
              && if stream.expectedKind == "trip_update" then m.stopTimeUpdateTotal == Some(a.rows)
                 else a.rows == |captures| - |m.excluded|
  {
    Partition(env, captures);
    if |captures| > 0 {
      var name := ArtifactName(env, DataOf(env, stream.expectedKind, captures));
      assert name[0] == 'd' && "manifest.json"[0] == 'm';
    }
  }

  /** The database record of a manifest in its directory. */
  function RowOf(dir: string, m: Manifest, allowLocalOnly: bool): T.Compaction {
    var published := m.requiredDestinations == [] && allowLocalOnly;
    T.Compaction(if published then "published" else "ready", dir,
                 if |m.files| == 0 then "" else PathIn(dir, m.files[0].relativePath), PathIn(dir, MANIFEST_NAME),
                 if |m.files| == 0 then "" else m.files[0].sha256, if |m.files| == 0 then 0 else m.files[0].bytes,
                 m.capturedResponses, m.entityTotal, m.requiredDestinations, m.createdAt,
                 if published then Some(m.createdAt) else None)
  }

  /** SHA-256 in hex holds no separator. */
  ghost predicate Hexadecimal(env: Env) {
    forall data :: '/' !in env.hash(data)
  }

  lemma {:induction false} ExclusionsPass(env: Env, captures: seq<Capture>)
    requires DistinctIds(captures) && forall c :: c in captures ==> c.id != ""
    ensures ExclusionsOk(Exclusions(env, captures), InputsOf(captures))
  {
    Partition(env, captures);
    ExclusionsDistinct(env, captures);
    forall x | x in Exclusions(env, captures) ensures x.id != "" && x.reason in {RAW_MISSING, HASH_MISMATCH, READ_ERROR}
      && exists i :: i in InputsOf(captures) && i.id == x.id
    {
      var c :| c in captures && !Readable(env, c) && x == Exclusion(c.id, ReadVerified(env, c).reason);
      var n :| 0 <= n < |captures| && captures[n] == c;
      assert InputsOf(captures)[n] in InputsOf(captures);
    }
  }

  lemma {:induction false} ExclusionsDistinct(env: Env, captures: seq<Capture>)
    requires DistinctIds(captures)
    ensures forall i, j :: 0 <= i < j < |Exclusions(env, captures)| ==>
      Exclusions(env, captures)[i].id != Exclusions(env, captures)[j].id
  {
    if |captures| > 0 {
      var front, last := captures[..|captures|-1], captures[|captures|-1];
      ExclusionsDistinct(env, front);
      Partition(env, front);
      forall x | x in Exclusions(env, front) ensures x.id != last.id {
        var c :| c in front && !Readable(env, c) && x == Exclusion(c.id, ReadVerified(env, c).reason);
        var n :| 0 <= n < |front| && front[n] == c;
        assert captures[n].id != last.id;
      }
    }
  }

  /** Whatever payloads were missing or damaged, as long as one was readable or none was captured, the directory
      and the record a compaction writes pass VerifyDirectory, under both schema versions. */
  lemma WrittenPassesVerification(env: Env, cfg: Config, stream: Stream, k: T.Revision, captures: seq<Capture>,
                                  url: string,
                                  tally: Tally, now: int, root: Tree)
    requires Hexadecimal(env) && D.Identified(cfg.destinations)
    requires DistinctIds(captures) && forall c :: c in captures ==> c.id != ""
    requires |captures| == 0 || |Included(env, captures)| > 0
    requires var m := ManifestOf(env, cfg, stream, k, captures, url, tally, now);
      RevisionDirectory(k) in root && root[RevisionDirectory(k)] == FilesOf(env, stream.expectedKind, captures, m)
    ensures var m := ManifestOf(env, cfg, stream, k, captures, url, tally, now);
      DirectoryOk(env, root, k, RowOf(RevisionDirectory(k), m, cfg.allowLocalOnlyCleanup))
  {
    var m := ManifestOf(env, cfg, stream, k, captures, url, tally, now);
    var dir := RevisionDirectory(k);
    var row := RowOf(dir, m, cfg.allowLocalOnlyCleanup);
    IdentityPasses(env, cfg, stream, k, captures, url, tally, now);
    ExclusionsPass(env, captures);
    StatusPasses(env, cfg, stream, k, captures, url, tally, now);
    D.WrittenSnapshotOk(cfg.destinations);
    if |captures| > 0 {
      EntryPasses(env, stream.expectedKind, captures, root, m, cfg.allowLocalOnlyCleanup, k);
    }
    DirectoryPasses(env, root, dir, m, k, row);
  }

  lemma IdentityPasses(env: Env, cfg: Config, stream: Stream, k: T.Revision, captures: seq<Capture>, url: string,
                       tally: Tally, now: int)
    ensures var m := ManifestOf(env, cfg, stream, k, captures, url, tally, now);
      IdentityOk(m, k, RowOf(RevisionDirectory(k), m, cfg.allowLocalOnlyCleanup))
  {
  }

  lemma StatusPasses(env: Env, cfg: Config, stream: Stream, k: T.Revision, captures: seq<Capture>, url: string,
                     tally: Tally, now: int)
    requires |captures| == 0 || |Included(env, captures)| > 0
    ensures var m := ManifestOf(env, cfg, stream, k, captures, url, tally, now);
      StatusOk(m) && ExpectedRows(m) == Some(ArtifactRows(env, stream.expectedKind, captures))
  {
    Partition(env, captures);
  }

  lemma DirectoryPasses(env: Env, root: Tree, dir: string, m: Manifest, k: T.Revision, row: T.Compaction)
    requires FileAt(root, dir, MANIFEST_NAME) == Some(ManifestFile(m)) && row.manifestPath == PathIn(dir, MANIFEST_NAME)
    requires IdentityOk(m, k, row) && ExclusionsOk(m.excluded, m.inputs) && StatusOk(m)
    requires D.SnapshotOk(m.destinations, m.requiredDestinations) && ExpectedRows(m).Some?
    requires |m.files| <= 1 && (|m.files| == 1 ==> ArtifactOk(env, root, dir, m, row, m.files[0]))
    ensures DirectoryOk(env, root, k, row)
  {
    PathInParts(dir, MANIFEST_NAME);
    assert forall a :: a in m.files ==> a == m.files[0];
  }

  lemma NameIsBase(hash: string)
    requires '/' !in hash
    ensures IsBasename("data-" + hash + ".parquet") && "data-" + hash + ".parquet" != MANIFEST_NAME
  {
    var name := "data-" + hash + ".parquet";
    assert name[0] == 'd' && MANIFEST_NAME[0] == 'm';
  }

  lemma EntryPasses(env: Env, kind: string, captures: seq<Capture>, root: Tree, m: Manifest, allow: bool, k: T.Revision)
    requires Hexadecimal(env) && |captures| > 0
    requires m.files == [Entry(env, kind, captures)] && ExpectedRows(m) == Some(ArtifactRows(env, kind, captures))
    requires m.entityTotal == EntityTotal(Included(env, captures))
    requires RevisionDirectory(k) in root && root[RevisionDirectory(k)] == FilesOf(env, kind, captures, m)
    ensures ArtifactOk(env, root, RevisionDirectory(k), m, RowOf(RevisionDirectory(k), m, allow), m.files[0])
  {
    NameIsBase(env.hash(DataOf(env, kind, captures)));
  }

  // ---- Compact ----

  /** The reader's buffer of 1024 rows. */
  method ReadBack<T>(rows: seq<T>, limit: nat) returns (batches: seq<seq<T>>)
    requires limit > 0
    ensures Artifact.Joined(batches) == rows
  {
    batches := [];
    var at := 0;
    while at < |rows|
      invariant at <= |rows| && Artifact.Joined(batches) == rows[..at]
    {
      var end := if |rows| - at < limit then |rows| else at + limit;
      assert (batches + [rows[at..end]])[..|batches|] == batches;
      assert rows[..end] == rows[..at] + rows[at..end];
      batches, at := batches + [rows[at..end]], end;
    }
    assert rows[..|rows|] == rows;
  }

  /** Writes the artifact, reads it back and validates it; `fault` is a read error. */
  method WriteArtifact(env: Env, kind: string, captures: seq<Capture>, fault: bool)
    returns (ok: bool, data: Data, entities: int, rows: int, excluded: seq<Exclusion>)
    ensures ok <==> !fault && |Included(env, captures)| > 0
    ensures ok ==> data == DataOf(env, kind, captures) && rows == ArtifactRows(env, kind, captures)
    ensures ok ==> entities == EntityTotal(Included(env, captures)) && excluded == Exclusions(env, captures)
  {
    var included: seq<Capture>;
    IncludedReadable(env, captures);
    if kind == "trip_update" {
      var w := WriteTripUpdateParquet(env, captures);
      FlatRowsValidate(env, captures);
      data, entities, rows, included, excluded := Flat(w.rows), w.entities, w.stops, w.included, w.excluded;
      var batches := ReadBack(w.rows, 1024);
      ok := ValidateTripUpdateParquet(env, batches, fault, included);
    } else {
      var nested;
      nested, entities, included, excluded := WriteParquet(env, captures);
      NestedRowsValidate(env, captures);
      data, rows := Nested(nested), |included|;
      var batches := ReadBack(nested, 1);
      ok := ValidateParquet(env, batches, fault, included);
    }
    ok := ok && |included| > 0;
  }

  /** manifestSanitizedURL: the one URL all captures carry. */
  method SanitizedUrl(captures: seq<Capture>, stream: Stream) returns (ok: bool, url: string)
    ensures ok <==> forall c, d :: c in captures && d in captures ==> c.url == d.url
    ensures ok ==> url == if |captures| == 0 then stream.sanitizedUrl else captures[0].url
  {
    if |captures| == 0 {
      return true, stream.sanitizedUrl;
    }
    url := captures[0].url;
    for i := 1 to |captures|
      invariant forall c :: c in captures[..i] ==> c.url == url
    {
      if captures[i].url != url {
        assert captures[i] in captures && captures[0] in captures;
        return false, url;
      }
    }
    assert captures[..|captures|] == captures;
    ok := true;
  }

  /** The staged directory: the validated artifact and the manifest filled in around it. */
  method Assemble(env: Env, cfg: Config, stream: Stream, k: T.Revision, captures: seq<Capture>, fault: bool, now: int)
    returns (ok: bool, m: Manifest, files: map<string, File>)
    ensures ok ==> |captures| == 0 || |Included(env, captures)| > 0
    ensures ok ==> m == ManifestOf(env, cfg, stream, k, captures, m.sanitizedUrl, m.tally, now)
    ensures ok ==> files == FilesOf(env, stream.expectedKind, captures, m)
    ensures ok ==> Counted(m.tally, captures) && Stamped(m.tally, captures) && Spaced(m.tally, captures)
    ensures ok ==> forall c :: c in captures ==> c.url == m.sanitizedUrl
    ensures ok && |captures| == 0 ==> m.sanitizedUrl == stream.sanitizedUrl
    ensures ok <==> (forall c, d :: c in captures && d in captures ==> c.url == d.url)
                    && (|captures| == 0 || (!fault && |Included(env, captures)| > 0))
  {
    var url;
    ok, url := SanitizedUrl(captures, stream);
    m := Manifest(MANIFEST_VERSION, Ready, k, stream.expectedKind, url, FORMAT_VERSION,
                  SchemaVersionForKind(stream.expectedKind), if k.number > 1 then Some(k.number - 1) else None, now,
                  |captures|, 0, None, NOTHING, [], InputsOf(captures), [],
                  D.Sorted(D.RequiredIds(cfg.destinations)), D.SortDestinations(cfg.destinations));
    files := map[];
    if !ok {
      return;
    }
    if |captures| == 0 {
      m := m.(datasetStatus := NoCapturedResponses);
      if stream.expectedKind == "trip_update" {
        m := m.(stopTimeUpdateTotal := Some(0));
      }
    } else {
      var data, entities, rows, excluded;
      ok, data, entities, rows, excluded := WriteArtifact(env, stream.expectedKind, captures, fault);
      if !ok {
        return;
      }
      if stream.expectedKind == "trip_update" {
        m := m.(stopTimeUpdateTotal := Some(rows));
      }
      var name := "data-" + env.hash(data) + ".parquet";
      files := files[name := DataFile(data)];
      m := m.(excluded := excluded, entityTotal := entities,
              files := [FileEntry(name, env.size(data), env.hash(data), rows, entities)]);
    }
    var tally := Aggregate(captures);
    m := m.(tally := tally);
    files := files[MANIFEST_NAME := ManifestFile(m)];
  }

  /** The rows CapturesForDay returns. */
  ghost predicate Selected(db: T.DB, day: T.Day, captures: seq<Capture>) {
    && DistinctIds(captures)
    && (forall id :: id in T.DayCaptures(db, day) <==> exists c :: c in captures && c.id == id)
    && (forall c :: c in captures ==> c.id != "" && c.id in db.captures && db.captures[c.id].sha256 == c.sha256)
  }

  lemma SelectedIds(db: T.DB, day: T.Day, captures: seq<Capture>)
    requires Selected(db, day, captures)
    ensures T.Distinct(IdList(captures))
    ensures (set id | id in IdList(captures)) == T.DayCaptures(db, day)
  {
    forall id ensures id in IdList(captures) <==> id in T.DayCaptures(db, day) {
      if id in T.DayCaptures(db, day) {
        var c :| c in captures && c.id == id;
        var n :| 0 <= n < |captures| && captures[n] == c;
        assert IdList(captures)[n] == id;
      }
      if id in IdList(captures) {
        var n :| 0 <= n < |captures| && IdList(captures)[n] == id;
        assert captures[n] in captures;
      }
    }
  }

  datatype Outcome = Refused | Recorded(manifest: Manifest, row: T.Compaction)

  /** Saving the revision of all the captures of a day leaves nothing of it to compact. */
  lemma SavedDayIsDone(db: T.DB, day: T.Day, row: T.Compaction, captures: seq<Capture>, queue: map<string, bool>,
                       now: int)
    requires StateLaws.ForeignKeys(db) && StateLaws.Gapless(db, day) && Selected(db, day, captures)
    requires row.rows == |captures|
    ensures var k := T.Revision(day, T.NextRevision(db, day));
      var saved := T.SaveCompaction(db, k, row, IdList(captures), queue, now);
      saved.Some? && forall start, end :: !T.DayNeedsCompaction(saved.value, day, start, end)
  {
    SelectedIds(db, day, captures);
    StateLaws.CompactionConverges(db, day, row, IdList(captures), queue, now, 0, 0);
    var k := T.Revision(day, T.NextRevision(db, day));
    var saved := T.SaveCompaction(db, k, row, IdList(captures), queue, now);
    forall start, end ensures !T.DayNeedsCompaction(saved.value, day, start, end) {
      StateLaws.CompactionConverges(db, day, row, IdList(captures), queue, now, start, end);
    }
  }

  class Compactor {
    var root: Tree
    const store: StateStore.Store

    constructor (root: Tree, store: StateStore.Store)
      ensures this.root == root && this.store == store
    {
      this.root, this.store := root, store;
    }

    /** Compact. `dies` is a crash, or a failed sync, between the rename of the directory and the transaction. */
    method Compact(env: Env, cfg: Config, stream: Stream, day: T.Day, requested: int, captures: seq<Capture>,
                   fault: bool,
                   now: int, savedAt: int, dies: bool) returns (r: Outcome)
      requires Hexadecimal(env) && D.Identified(cfg.destinations) && Selected(store.Contents(), day, captures)
      modifies this`root, store
      ensures r.Recorded? <==>
        && (requested <= 0 || requested == T.NextRevision(old(store.Contents()), day))
        && RevisionDirectory(T.Revision(day, T.NextRevision(old(store.Contents()), day))) !in old(root)
        && (forall c, d :: c in captures && d in captures ==> c.url == d.url)
        && (|captures| == 0 || (!fault && |Included(env, captures)| > 0))
      ensures r.Refused? ==> root == old(root) && store.Contents() == old(store.Contents())
      ensures r.Recorded? ==>
        var k := T.Revision(day, T.NextRevision(old(store.Contents()), day));
        && RevisionDirectory(k) !in old(root)
        && root == old(root)[RevisionDirectory(k) := FilesOf(env, stream.expectedKind, captures, r.manifest)]
        && r.manifest == ManifestOf(env, cfg, stream, k, captures, r.manifest.sanitizedUrl, r.manifest.tally, now)
        && Counted(r.manifest.tally, captures) && Stamped(r.manifest.tally, captures)
           && Spaced(r.manifest.tally, captures)
        && r.row == RowOf(RevisionDirectory(k), r.manifest, cfg.allowLocalOnlyCleanup)
        && DirectoryOk(env, root, k, r.row)
        && store.Contents() == (if dies then old(store.Contents()) else GetOr(
             T.SaveCompaction(old(store.Contents()), k, r.row, IdList(captures), D.Queue(cfg.destinations), savedAt),
             old(store.Contents())))
      ensures r.Recorded? && !dies ==>
        var db := old(store.Contents());
        StateLaws.ForeignKeys(db) && StateLaws.Gapless(db, day) ==>
        forall start, end :: !T.DayNeedsCompaction(store.Contents(), day, start, end)
    {
      var next := store.NextRevision(day);
      if requested > 0 && requested != next {
        return Refused;
      }
      var k := T.Revision(day, next);
      var dir := RevisionDirectory(k);
      if dir in root {
        return Refused;
      }
      var ok, m, files := Assemble(env, cfg, stream, k, captures, fault, now);
      if !ok {
        return Refused;
      }
      root := root[dir := files];
      var row := Record(dir, m, cfg);
      WrittenPassesVerification(env, cfg, stream, k, captures, m.sanitizedUrl, m.tally, now, root);
      if !dies {
        Save(day, k, row, captures, cfg, savedAt);
      }
      r := Recorded(m, row);
    }

    method Save(day: T.Day, k: T.Revision, row: T.Compaction, captures: seq<Capture>, cfg: Config, savedAt: int)
      requires Selected(store.Contents(), day, captures) && row.rows == |captures|
      requires k == T.Revision(day, T.NextRevision(store.Contents(), day))
      modifies store
      ensures store.Contents() == GetOr(
        T.SaveCompaction(old(store.Contents()), k, row, IdList(captures), D.Queue(cfg.destinations), savedAt),
        old(store.Contents()))
      ensures
        var db := old(store.Contents());
        StateLaws.ForeignKeys(db) && StateLaws.Gapless(db, day) ==>
        forall start, end :: !T.DayNeedsCompaction(store.Contents(), day, start, end)
    {
      ghost var db := store.Contents();
      var saved := store.SaveCompaction(k, row, IdList(captures), D.Queue(cfg.destinations), savedAt);
      if StateLaws.ForeignKeys(db) && StateLaws.Gapless(db, day) {
        SavedDayIsDone(db, day, row, captures, D.Queue(cfg.destinations), savedAt);
      }
    }

    method Record(dir: string, m: Manifest, cfg: Config) returns (row: T.Compaction)
      requires |m.files| <= 1
      ensures row == RowOf(dir, m, cfg.allowLocalOnlyCleanup)
      ensures row.directory == dir && row.manifestPath == dir + "/manifest.json"
      ensures row.rows == m.capturedResponses && row.entities == m.entityTotal && row.createdAt == m.createdAt
      ensures row.requiredDestinations == m.requiredDestinations
      ensures |m.files| == 0 ==> row.dataPath == row.dataSha256 == "" && row.dataBytes == 0
      ensures |m.files| == 1 ==>
        && row.dataPath == dir + ['/'] + m.files[0].relativePath
        && row.dataSha256 == m.files[0].sha256 && row.dataBytes == m.files[0].bytes
      ensures if m.requiredDestinations == [] && cfg.allowLocalOnlyCleanup
        then row.status == "published" && row.publishedAt == Some(m.createdAt)
        else row.status == "ready" && row.publishedAt == None
    {
      row := T.Compaction("ready", dir, "", PathIn(dir, MANIFEST_NAME), "", 0, m.capturedResponses, m.entityTotal,
                          m.requiredDestinations, m.createdAt, None);
      if |m.files| != 0 {
        var artifact := m.files[0];
        row := row.(dataPath := PathIn(dir, artifact.relativePath), dataSha256 := artifact.sha256,
          dataBytes := artifact.bytes);
      }
      if |m.requiredDestinations| == 0 && cfg.allowLocalOnlyCleanup {
        row := row.(status := "published", publishedAt := Some(m.createdAt));
      }
    }
  }
}
