/** The two-file raw commit and its recovery, with a crash or an I/O error allowed at every file operation. */
module RawStore {
  import opened Prelude

  type Bytes = seq<bv8>

  /** The sidecar's identity, placement and hash. */
  datatype Capture = Capture(formatVersion: int, id: string, tickId: string, sourceId: string, streamId: string,
                             scheduledAt: int, timezone: string, archiveDate: string, bodySha256: string,
                             rawPath: string, sidecarPath: string)

  /** The content of a .json or .json.tmp file. */
  datatype Note = Decoded(c: Capture) | Torn

  /** Files by directory. Staging holds response bodies, `ID.pb.tmp` and `ID.json.tmp`; raw/ holds `base.pb`
      and `base.json`, keyed by their common base path. */
  datatype Disk = Disk(bodies: map<string, Bytes>, payloads: map<string, Bytes>, notes: map<string, Note>,
                       raw: map<string, Bytes>, sidecars: map<string, Note>)

  /** SHA-256 in hex, and the identity check: the base path of an accepted capture. */
  datatype Env = Env(digest: Bytes -> string, check: Capture -> Option<string>)

  predicate Valid(env: Env, c: Capture) {
    env.check(c).Some?
  }

  function BaseOf(env: Env, c: Capture): string
    requires Valid(env, c)
  {
    env.check(c).value
  }

  /** Captures of different IDs never share a base path (RawPaths proves it of the program's check). */
  ghost predicate Sound(env: Env) {
    forall c, d :: Valid(env, c) && Valid(env, d) && BaseOf(env, c) == BaseOf(env, d) ==> c.id == d.id
  }

  // ---- what raw/ must look like at every instant ----

  /** A sidecar that names its own path and whose payload is there with the recorded hash. */
  predicate Paired(env: Env, d: Disk, b: string) {
    && b in d.sidecars && d.sidecars[b].Decoded? && Valid(env, d.sidecars[b].c) && BaseOf(env, d.sidecars[b].c) == b
    && b in d.raw && env.digest(d.raw[b]) == d.sidecars[b].c.bodySha256
  }

  /** A staged sidecar from which the payload at `b` can be completed. */
  predicate Supports(env: Env, d: Disk, id: string, b: string) {
    && id in d.notes && d.notes[id].Decoded? && Valid(env, d.notes[id].c) && d.notes[id].c.id == id
    && BaseOf(env, d.notes[id].c) == b
    && b in d.raw && env.digest(d.raw[b]) == d.notes[id].c.bodySha256
  }

  ghost predicate Safe(env: Env, d: Disk) {
    && (forall b :: b in d.sidecars ==> Paired(env, d, b))
    && (forall b :: b in d.raw && b !in d.sidecars ==> exists id :: Supports(env, d, id, b))
  }

  // ---- file operations ----

  datatype Op =
    | NamePayload(body: string, id: string)     // body -> ID.pb.tmp
    | CreateNote(id: string)                     // O_CREATE|O_EXCL: still empty
    | FillNote(id: string, c: Capture)           // write and fsync
    | SyncStaging
    | MovePayload(id: string, base: string)      // ID.pb.tmp -> base.pb
    | MoveNote(id: string, base: string)         // ID.json.tmp -> base.json
    | SyncRaw(base: string)                      // fsync of the directory of base
    | DropNote(id: string)
    | DropPayload(id: string)
    | DropBody(body: string)

  /** Whether the operation can succeed; removals of missing files are ignored by the program. */
  predicate Possible(d: Disk, op: Op) {
    match op
    case NamePayload(body, _) => body in d.bodies
    case CreateNote(id) => id !in d.notes
    case FillNote(id, _) => id in d.notes
    case MovePayload(id, _) => id in d.payloads
    case MoveNote(id, _) => id in d.notes
    case _ => true
  }

  /** A rename of a missing file and an exclusive create of an existing one change nothing. */
  function Do(d: Disk, op: Op): Disk {
    match op
    case NamePayload(body, id) =>
      if body in d.bodies then d.(payloads := d.payloads[id := d.bodies[body]], bodies := d.bodies - {body}) else d
    case CreateNote(id) => if id in d.notes then d else d.(notes := d.notes[id := Torn])
    case FillNote(id, c) => if id in d.notes then d.(notes := d.notes[id := Decoded(c)]) else d
    case MovePayload(id, b) =>
      if id in d.payloads then d.(raw := d.raw[b := d.payloads[id]], payloads := d.payloads - {id}) else d
    case MoveNote(id, b) =>
      if id in d.notes then d.(sidecars := d.sidecars[b := d.notes[id]], notes := d.notes - {id}) else d
    case DropNote(id) => d.(notes := d.notes - {id})
    case DropPayload(id) => d.(payloads := d.payloads - {id})
    case DropBody(body) => d.(bodies := d.bodies - {body})
    case SyncStaging => d
    case SyncRaw(b) => d
  }

  // ---- the commit, one operation at a time ----

  datatype Job = Job(body: string, bytes: Bytes, c: Capture)

  function CommitOps(env: Env, j: Job): seq<Op>
    requires Valid(env, j.c)
  {
    var b := BaseOf(env, j.c);
    [NamePayload(j.body, j.c.id), CreateNote(j.c.id), FillNote(j.c.id, j.c), SyncStaging,
     MovePayload(j.c.id, b), SyncRaw(b), MoveNote(j.c.id, b), SyncRaw(b)]
  }

  predicate Ready(env: Env, j: Job) {
    Valid(env, j.c) && env.digest(j.bytes) == j.c.bodySha256
  }

  /** Where the job's own files are after `n` operations. */
  predicate Stage(env: Env, d: Disk, j: Job, n: nat)
    requires Valid(env, j.c)
  {
    var id, b := j.c.id, BaseOf(env, j.c);
    if n == 0 then j.body in d.bodies && d.bodies[j.body] == j.bytes && id !in d.notes && b !in d.raw
    else if n < 5 then
      && id in d.payloads && d.payloads[id] == j.bytes && b !in d.raw
      && (if n == 1 then id !in d.notes else id in d.notes && d.notes[id] == if n == 2 then Torn else Decoded(j.c))
    else
      && b in d.raw && d.raw[b] == j.bytes
      && (if n < 7 then id in d.notes && d.notes[id] == Decoded(j.c) && b !in d.sidecars
          else b in d.sidecars && d.sidecars[b] == Decoded(j.c))
  }

  /** Operations on staging files alone are safe as long as no needed staged sidecar is lost. */
  lemma StagingSafe(env: Env, d: Disk, e: Disk)
    requires Safe(env, d) && e.raw == d.raw && e.sidecars == d.sidecars
    requires forall id :: id in d.notes && d.notes[id].Decoded? ==> id in e.notes && e.notes[id] == d.notes[id]
    ensures Safe(env, e)
  {
    forall x | x in e.sidecars ensures Paired(env, e, x) {
      SamePair(env, d, e, x);
    }
    forall x | x in e.raw && x !in e.sidecars ensures exists i :: Supports(env, e, i, x) {
      var i :| Supports(env, d, i, x);
      SupportNames(env, d, i, x);
      SameSupport(env, d, e, i, x);
    }
  }

  lemma SameSupport(env: Env, d: Disk, e: Disk, i: string, x: string)
    requires Supports(env, d, i, x) && i in e.notes && e.notes[i] == d.notes[i] && x in e.raw && e.raw[x] == d.raw[x]
    ensures Supports(env, e, i, x)
  {
  }

  lemma SamePair(env: Env, d: Disk, e: Disk, x: string)
    requires Paired(env, d, x) && x in e.sidecars && e.sidecars[x] == d.sidecars[x] && x in e.raw
      && e.raw[x] == d.raw[x]
    ensures Paired(env, e, x)
  {
  }

  lemma SupportNames(env: Env, d: Disk, i: string, x: string)
    requires Supports(env, d, i, x)
    ensures i in d.notes && x in d.raw
  {
  }

  /** One staged sidecar supports one payload. */
  lemma SupportOne(env: Env, d: Disk, i: string, x: string, j: string, y: string)
    requires Supports(env, d, i, x) && Supports(env, d, j, y) && x != y
    ensures i != j
  {
  }

  lemma SupportPairs(env: Env, d: Disk, e: Disk, i: string, x: string)
    requires Supports(env, d, i, x) && x in e.sidecars && e.sidecars[x] == d.notes[i] && x in e.raw
      && e.raw[x] == d.raw[x]
    ensures Paired(env, e, x)
  {
  }

  /** Moving a payload whose staged sidecar is complete. */
  lemma MovePayloadSafe(env: Env, d: Disk, id: string, b: string)
    requires Safe(env, d) && id in d.payloads && b !in d.raw
    requires id in d.notes && d.notes[id].Decoded? && Valid(env, d.notes[id].c) && d.notes[id].c.id == id
    requires BaseOf(env, d.notes[id].c) == b && env.digest(d.payloads[id]) == d.notes[id].c.bodySha256
    ensures Safe(env, Do(d, MovePayload(id, b)))
  {
    var e := Do(d, MovePayload(id, b));
    assert Supports(env, e, id, b);
    forall x | x in e.sidecars ensures Paired(env, e, x) {
      assert Paired(env, d, x);
      SamePair(env, d, e, x);
    }
    forall x | x in e.raw && x !in e.sidecars ensures exists i :: Supports(env, e, i, x) {
      if x != b {
        var i :| Supports(env, d, i, x);
        SameSupport(env, d, e, i, x);
      }
    }
  }

  /** Publishing the staged sidecar of a payload that is in place. */
  lemma MoveNoteSafe(env: Env, d: Disk, id: string, b: string)
    requires Safe(env, d) && Supports(env, d, id, b)
    ensures Safe(env, Do(d, MoveNote(id, b)))
  {
    SupportNames(env, d, id, b);
    MovedNote(env, d, Do(d, MoveNote(id, b)), id, b);
  }

  lemma MovedNote(env: Env, d: Disk, e: Disk, id: string, b: string)
    requires Safe(env, d) && Supports(env, d, id, b) && id in d.notes
    requires e.raw == d.raw && e.sidecars == d.sidecars[b := d.notes[id]] && e.notes == d.notes - {id}
    ensures Safe(env, e)
  {
    SupportPairs(env, d, e, id, b);
    forall x | x in e.sidecars ensures Paired(env, e, x) {
      if x != b { SamePair(env, d, e, x); }
    }
    forall x | x in e.raw && x !in e.sidecars ensures exists i :: Supports(env, e, i, x) {
      var i :| Supports(env, d, i, x);
      SupportNames(env, d, i, x);
      SupportOne(env, d, i, x, id, b);
      SameSupport(env, d, e, i, x);
    }
  }

  /** Staging operations that never touch a decoded sidecar. */
  lemma StagingOpSafe(env: Env, d: Disk, op: Op)
    requires Safe(env, d)
    requires op.NamePayload? || op.CreateNote? || op.SyncStaging? || op.SyncRaw? || op.DropPayload? || op.DropBody?
      || (op.FillNote? && op.id in d.notes && d.notes[op.id] == Torn)
    ensures Safe(env, Do(d, op))
  {
    StagingSafe(env, d, Do(d, op));
  }

  lemma StageStep(env: Env, d: Disk, j: Job, n: nat)
    requires Ready(env, j) && n < 8 && Stage(env, d, j, n)
    requires n == 4 ==> BaseOf(env, j.c) !in d.sidecars
    ensures Stage(env, Do(d, CommitOps(env, j)[n]), j, n + 1)
  {
  }

  /** Every operation of a commit moves its own files on and keeps raw/ safe. */
  lemma CommitStep(env: Env, d: Disk, j: Job, n: nat)
    requires Ready(env, j) && n < 8 && Safe(env, d) && Stage(env, d, j, n)
    ensures Safe(env, Do(d, CommitOps(env, j)[n])) && Stage(env, Do(d, CommitOps(env, j)[n]), j, n + 1)
  {
    var id, b := j.c.id, BaseOf(env, j.c);
    assert b in d.sidecars ==> Paired(env, d, b);
    StageStep(env, d, j, n);
    if n == 4 {
      MovePayloadSafe(env, d, id, b);
    } else if n == 6 {
      MoveNoteSafe(env, d, id, b);
    } else {
      StagingOpSafe(env, d, CommitOps(env, j)[n]);
    }
  }

  /** Operations of one job leave the files of every other job where they are. */
  lemma CommitFrame(env: Env, d: Disk, j: Job, n: nat, k: Job, m: nat)
    requires Sound(env) && Ready(env, j) && Ready(env, k) && j.c.id != k.c.id && j.body != k.body
    requires n < 8 && m <= 8 && Stage(env, d, j, n) && Stage(env, d, k, m)
    ensures Stage(env, Do(d, CommitOps(env, j)[n]), k, m)
  {
    assert BaseOf(env, j.c) != BaseOf(env, k.c);
  }

  /** Commits in flight at one time, each `done` operations in. */
  datatype Flight = Flight(disk: Disk, jobs: seq<Job>, done: seq<nat>)

  ghost predicate FlightOk(env: Env, f: Flight) {
    && Sound(env) && Safe(env, f.disk) && |f.jobs| == |f.done|
    && (forall i :: 0 <= i < |f.jobs| ==>
        Ready(env, f.jobs[i]) && f.done[i] <= 8 && Stage(env, f.disk, f.jobs[i], f.done[i]))
    && (forall i, k :: 0 <= i < k < |f.jobs| ==> f.jobs[i].c.id != f.jobs[k].c.id && f.jobs[i].body != f.jobs[k].body)
  }

  /** One more operation of job `i`. */
  function Advance(env: Env, f: Flight, i: nat): Flight
    requires i < |f.jobs| == |f.done| && f.done[i] < 8 && Valid(env, f.jobs[i].c)
  {
    f.(disk := Do(f.disk, CommitOps(env, f.jobs[i])[f.done[i]]), done := f.done[i := f.done[i] + 1])
  }

  lemma AdvanceKeeps(env: Env, f: Flight, i: nat)
    requires FlightOk(env, f) && i < |f.jobs| && f.done[i] < 8
    ensures FlightOk(env, Advance(env, f, i))
  {
    var g := Advance(env, f, i);
    CommitStep(env, f.disk, f.jobs[i], f.done[i]);
    forall k | 0 <= k < |g.jobs| ensures Stage(env, g.disk, g.jobs[k], g.done[k]) {
      if k != i {
        CommitFrame(env, f.disk, f.jobs[i], f.done[i], f.jobs[k], f.done[k]);
      }
    }
  }

  /** The state after the commits took the operations of `schedule` in that order. */
  function Interleave(env: Env, f: Flight, schedule: seq<nat>): Flight
    requires |f.jobs| == |f.done| && forall i :: 0 <= i < |f.jobs| ==> Valid(env, f.jobs[i].c)
    decreases |schedule|
  {
    if |schedule| == 0 then f
    else if schedule[0] < |f.jobs| && f.done[schedule[0]] < 8
      then Interleave(env, Advance(env, f, schedule[0]), schedule[1..])
    else Interleave(env, f, schedule[1..])
  }

  /** However the operations of concurrent commits interleave, and wherever the run is cut, raw/ never holds a
      sidecar whose payload is missing or different, and a payload without its sidecar has a staged sidecar
      that completes it. */
  lemma {:induction false} ConcurrentCommitsSafe(env: Env, f: Flight, schedule: seq<nat>)
    requires FlightOk(env, f)
    ensures FlightOk(env, Interleave(env, f, schedule))
    decreases |schedule|
  {
    if |schedule| > 0 {
      if schedule[0] < |f.jobs| && f.done[schedule[0]] < 8 {
        AdvanceKeeps(env, f, schedule[0]);
        ConcurrentCommitsSafe(env, Advance(env, f, schedule[0]), schedule[1..]);
      } else {
        ConcurrentCommitsSafe(env, f, schedule[1..]);
      }
    }
  }

  // ---- power loss ----

  /** `op` reached the disk for good once `sync` ran. */
  predicate Covers(sync: Op, op: Op) {
    match op
    case NamePayload(_, _) => sync.SyncStaging?
    case CreateNote(_) => sync.SyncStaging?
    case FillNote(_, _) => sync.SyncStaging?
    case MovePayload(_, b) => sync == SyncRaw(b)
    case MoveNote(_, b) => sync == SyncRaw(b)
    case _ => false
  }

  /** What a power loss leaves of `ops`: any subset of them, in order, that includes every synced one. */
  predicate Survives(ops: seq<Op>, kept: seq<bool>) {
    |kept| == |ops| && forall i, j :: 0 <= i < j < |ops| && Covers(ops[j], ops[i]) ==> kept[i]
  }

  function Masked(d: Disk, ops: seq<Op>, kept: seq<bool>): Disk
    requires |kept| == |ops|
  {
    if |ops| == 0 then d
    else
      var n := |ops| - 1;
      var e := Masked(d, ops[..n], kept[..n]);
      if kept[n] then Do(e, ops[n]) else e
  }

  /** The bits a power loss cannot clear after `n` operations of a commit. */
  predicate Forced(n: nat, kept: seq<bool>) {
    && |kept| == n <= 8
    && (n >= 4 ==> kept[0] && kept[1] && kept[2])
    && (n >= 6 ==> kept[4])
    && (n >= 8 ==> kept[6])
  }

  ghost predicate StagedOnly(d: Disk, e: Disk, id: string) {
    && e.raw == d.raw && e.sidecars == d.sidecars
    && (forall i :: i != id ==> (i in d.notes <==> i in e.notes) && (i in d.notes ==> e.notes[i] == d.notes[i]))
  }

  predicate NamedAndFilled(kept: seq<bool>) {
    forall i :: 0 <= i < |kept| && i < 3 ==> kept[i]
  }

  /** The disk after the surviving operations of a commit. */
  function Survived(env: Env, d: Disk, j: Job, kept: seq<bool>): Disk
    requires Valid(env, j.c) && |kept| <= 8
  {
    if |kept| == 0 then d
    else
      var n := |kept| - 1;
      var e := Survived(env, d, j, kept[..n]);
      if kept[n] then Do(e, CommitOps(env, j)[n]) else e
  }

  lemma {:induction false} SurvivedIsMasked(env: Env, d: Disk, j: Job, kept: seq<bool>)
    requires Valid(env, j.c) && |kept| <= 8
    ensures Masked(d, CommitOps(env, j)[..|kept|], kept) == Survived(env, d, j, kept)
  {
    if |kept| > 0 {
      var n := |kept| - 1;
      var ops := CommitOps(env, j)[..|kept|];
      assert ops[..n] == CommitOps(env, j)[..n];
      SurvivedIsMasked(env, d, j, kept[..n]);
    }
  }

  /** The disk `e` that a power loss within the first `n <= 4` operations made of `d`. */
  ghost predicate BeforeMove(env: Env, d: Disk, e: Disk, j: Job, n: nat, kept: seq<bool>)
    requires Valid(env, j.c)
  {
    && Safe(env, e) && StagedOnly(d, e, j.c.id)
    && (n <= 2 ==> (j.c.id in e.notes ==> e.notes[j.c.id] == Torn))
    && (NamedAndFilled(kept) ==> Stage(env, e, j, n))
  }

  lemma {:induction false} LossBeforeMove(env: Env, d: Disk, j: Job, n: nat, kept: seq<bool>)
    requires Ready(env, j) && Safe(env, d) && Stage(env, d, j, 0) && n <= 4 && Forced(n, kept)
    ensures BeforeMove(env, d, Survived(env, d, j, kept), j, n, kept)
    decreases n
  {
    if n > 0 {
      LossBeforeMove(env, d, j, n - 1, kept[..n-1]);
      StepBeforeMove(env, d, Survived(env, d, j, kept[..n-1]), j, n, kept);
    }
  }

  lemma StepBeforeMove(env: Env, d: Disk, e: Disk, j: Job, n: nat, kept: seq<bool>)
    requires Ready(env, j) && 0 < n <= 4 && |kept| == n && BeforeMove(env, d, e, j, n - 1, kept[..n-1])
    requires n == 4 ==> NamedAndFilled(kept)
    ensures BeforeMove(env, d, if kept[n-1] then Do(e, CommitOps(env, j)[n-1]) else e, j, n, kept)
  {
    if kept[n-1] {
      EarlyOpSafe(env, e, j, n - 1);
      EarlyOpStaged(env, d, e, j, n - 1);
    }
    if NamedAndFilled(kept) {
      assert NamedAndFilled(kept[..n-1]);
      StageStep(env, e, j, n - 1);
    }
  }

  lemma EarlyOpSafe(env: Env, e: Disk, j: Job, n: nat)
    requires Valid(env, j.c) && n < 4 && Safe(env, e)
    requires n == 2 && j.c.id in e.notes ==> e.notes[j.c.id] == Torn
    ensures Safe(env, Do(e, CommitOps(env, j)[n]))
  {
    if n != 2 || j.c.id in e.notes {
      StagingOpSafe(env, e, CommitOps(env, j)[n]);
    }
  }

  lemma EarlyOpStaged(env: Env, d: Disk, e: Disk, j: Job, n: nat)
    requires Valid(env, j.c) && n < 4 && StagedOnly(d, e, j.c.id)
    ensures StagedOnly(d, Do(e, CommitOps(env, j)[n]), j.c.id)
    ensures n <= 1 && (j.c.id in e.notes ==> e.notes[j.c.id] == Torn) ==>
      var f := Do(e, CommitOps(env, j)[n]); j.c.id in f.notes ==> f.notes[j.c.id] == Torn
  {
  }

  /** After a power loss at any point of a commit raw/ is safe: the directory syncs make each half durable
      before the next is published. */
  lemma PowerLossSafe(env: Env, d: Disk, j: Job, n: nat, kept: seq<bool>)
    requires Ready(env, j) && Safe(env, d) && Stage(env, d, j, 0)
    requires n <= 8 && Survives(CommitOps(env, j)[..n], kept)
    ensures Safe(env, Masked(d, CommitOps(env, j)[..n], kept))
  {
    var ops, b := CommitOps(env, j), BaseOf(env, j.c);
    if n >= 4 { assert ops[..n][3] == SyncStaging && ops[..n][0] == ops[0] && ops[..n][1] == ops[1]
      && ops[..n][2] == ops[2]; }
    if n >= 6 { assert ops[..n][5] == SyncRaw(b) && ops[..n][4] == ops[4]; }
    if n >= 8 { assert ops[..n][7] == SyncRaw(b) && ops[..n][6] == ops[6]; }
    LossAnywhere(env, d, j, n, kept);
    SurvivedIsMasked(env, d, j, kept);
  }

  /** The stage a commit is found in after a power loss past the staging sync. */
  function StageAfter(n: nat, kept: seq<bool>): nat
    requires |kept| == n && 4 <= n <= 8
  {
    if n == 4 then 4 else if n <= 6 then (if kept[4] then n else 4) else if kept[6] then n else 6
  }

  lemma LossEarly(env: Env, d: Disk, j: Job, n: nat, kept: seq<bool>)
    requires Ready(env, j) && Safe(env, d) && Stage(env, d, j, 0) && n <= 4 && Forced(n, kept)
    ensures Safe(env, Survived(env, d, j, kept))
    ensures n == 4 ==> Stage(env, Survived(env, d, j, kept), j, 4)
  {
    LossBeforeMove(env, d, j, n, kept);
  }

  lemma {:induction false} LossAnywhere(env: Env, d: Disk, j: Job, n: nat, kept: seq<bool>)
    requires Ready(env, j) && Safe(env, d) && Stage(env, d, j, 0) && Forced(n, kept)
    ensures Safe(env, Survived(env, d, j, kept))
    ensures n >= 4 ==> Stage(env, Survived(env, d, j, kept), j, StageAfter(n, kept))
    decreases n
  {
    if n <= 4 {
      LossEarly(env, d, j, n, kept);
    } else {
      assert Forced(n - 1, kept[..n-1]);
      LossAnywhere(env, d, j, n - 1, kept[..n-1]);
      LossStep(env, Survived(env, d, j, kept[..n-1]), j, n, kept);
    }
  }

  lemma LossStep(env: Env, e: Disk, j: Job, n: nat, kept: seq<bool>)
    requires Ready(env, j) && Safe(env, e) && 4 < n && Forced(n, kept)
    requires Stage(env, e, j, StageAfter(n - 1, kept[..n-1]))
    ensures var f := if kept[n-1] then Do(e, CommitOps(env, j)[n-1]) else e;
      Safe(env, f) && Stage(env, f, j, StageAfter(n, kept))
  {
    if (n == 5 || n == 7) && kept[n-1] {
      CommitStep(env, e, j, n - 1);
    }
  }

  /** What a commit does without its first sync of raw/, and a loss of the payload's move alone. */
  function SyncSkipped(env: Env, j: Job): seq<Op>
    requires Valid(env, j.c)
  {
    CommitOps(env, j)[..5] + [CommitOps(env, j)[6]]
  }

  const MOVE_LOST: seq<bool> := [true, true, true, true, false, true]

  lemma MoveLost(env: Env, d: Disk, j: Job)
    requires Ready(env, j) && Safe(env, d) && Stage(env, d, j, 0)
    ensures !Safe(env, Masked(d, SyncSkipped(env, j), MOVE_LOST))
  {
    var ops, b, front := SyncSkipped(env, j), BaseOf(env, j.c), [true, true, true, true];
    LossBeforeMove(env, d, j, 4, front);
    SurvivedIsMasked(env, d, j, front);
    assert ops[..5][..4] == CommitOps(env, j)[..4] && MOVE_LOST[..5][..4] == front;
    var e := Masked(d, ops[..5], MOVE_LOST[..5]);
    assert e == Masked(d, ops[..5][..4], MOVE_LOST[..5][..4]) == Survived(env, d, j, front);
    var f := Do(e, MoveNote(j.c.id, b));
    assert Masked(d, ops, MOVE_LOST) == f;
    assert b in f.sidecars && !Paired(env, f, b);
  }

  /** Without the first sync of raw/ the two renames could reach the disk in the other order: a sidecar
      without its payload. */
  lemma FirstSyncNeeded(env: Env, d: Disk, j: Job)
    requires Ready(env, j) && Safe(env, d) && Stage(env, d, j, 0)
    ensures exists kept :: Survives(SyncSkipped(env, j), kept) && !Safe(env, Masked(d, SyncSkipped(env, j), kept))
  {
    assert Survives(SyncSkipped(env, j), MOVE_LOST);
    MoveLost(env, d, j);
  }
}
