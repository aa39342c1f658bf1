/** Power loss while recovery finishes a commit that its process left behind, and after a commit that made directories.
    Recovery skips the syncs the commit did not reach, so the two renames may hit the disk in an order the commit itself
    rules out; and no directory is ever synced for the sake of the one made in it. */
module PowerLoss {
  import opened RawStore

  /** What recovery does for a commit cut after `n` operations: nothing before its sidecar is filled or after it is
      published, and no sync of staging or of a payload that is in place. */
  function RecoveryOps(env: Env, j: Job, n: nat): seq<Op>
    requires Valid(env, j.c)
  {
    if n < 3 || n >= 7 then [] else if n < 5 then CommitOps(env, j)[4..] else CommitOps(env, j)[6..]
  }

  /** The commit cut after `n` operations, then `m` operations of its recovery. */
  function History(env: Env, j: Job, n: nat, m: nat): seq<Op>
    requires Valid(env, j.c) && n <= 8 && m <= |RecoveryOps(env, j, n)|
  {
    CommitOps(env, j)[..n] + RecoveryOps(env, j, n)[..m]
  }

  /** A rename that survives carries its file along. */
  predicate Carried(ops: seq<Op>, kept: seq<bool>)
    requires |kept| == |ops|
  {
    forall i, k :: 0 <= i < k < |ops| && kept[k] && Carries(ops[k], ops[i]) ==> kept[i]
  }

  predicate Carries(move: Op, op: Op) {
    match op
    case NamePayload(_, id) => move.MovePayload? && move.id == id
    case CreateNote(id) => move.MoveNote? && move.id == id
    case FillNote(id, _) => move.MoveNote? && move.id == id
    case _ => false
  }

  predicate Durable(ops: seq<Op>, kept: seq<bool>) {
    Survives(ops, kept) && Carried(ops, kept)
  }

  ghost predicate SafeAfterLoss(env: Env, d: Disk, ops: seq<Op>) {
    forall kept :: Durable(ops, kept) ==> Safe(env, Masked(d, ops, kept))
  }

  /** The windows left open: the staged sidecar was never synced when the payload moved, until its own move is synced;
      or the payload's move was never synced when the sidecar moved, until that is. */
  predicate Exposed(n: nat, m: nat) {
    (n == 3 && 1 <= m <= 3) || (n == 5 && m == 1)
  }

  function DoAll(d: Disk, ops: seq<Op>): Disk {
    if |ops| == 0 then d else Do(DoAll(d, ops[..|ops|-1]), ops[|ops|-1])
  }

  predicate Effective(op: Op) {
    !op.SyncStaging? && !op.SyncRaw?
  }

  function Effects(ops: seq<Op>): seq<Op> {
    if |ops| == 0 then []
    else Effects(ops[..|ops|-1]) + if Effective(ops[|ops|-1]) then [ops[|ops|-1]] else []
  }

  /** Nothing lost but syncs is nothing lost. */
  lemma {:induction false} AllKept(d: Disk, ops: seq<Op>, kept: seq<bool>)
    requires |kept| == |ops| && forall i :: 0 <= i < |ops| && Effective(ops[i]) ==> kept[i]
    ensures Masked(d, ops, kept) == DoAll(d, Effects(ops))
  {
    if |ops| > 0 {
      var n := |ops| - 1;
      AllKept(d, ops[..n], kept[..n]);
      if Effective(ops[n]) {
        assert Effects(ops)[..|Effects(ops)|-1] == Effects(ops[..n]);
      } else {
        assert Effects(ops) == Effects(ops[..n]);
      }
    }
  }

  lemma {:induction false} EffectsAppend(a: seq<Op>, b: seq<Op>)
    ensures Effects(a + b) == Effects(a) + Effects(b)
  {
    if |b| == 0 {
      assert a + b == a;
    } else {
      assert (a + b)[..|a + b|-1] == a + b[..|b|-1];
      EffectsAppend(a, b[..|b|-1]);
    }
  }

  lemma NoEffects(op: Op)
    requires !Effective(op)
    ensures Effects([op]) == []
  {
    assert Effects([op][..0]) == [];
  }

  /** A commit cut in front of sync `n` and finished by recovery from operation `n + 1` on did what a commit does. */
  lemma SkippedSync(env: Env, j: Job, n: nat)
    requires Valid(env, j.c) && (n == 3 || n == 5)
    ensures Effects(CommitOps(env, j)[..n] + CommitOps(env, j)[n+1..]) == Effects(CommitOps(env, j))
  {
    var ops := CommitOps(env, j);
    EffectsAppend(ops[..n], ops[n+1..]);
    EffectsAppend(ops[..n], [ops[n]]);
    EffectsAppend(ops[..n] + [ops[n]], ops[n+1..]);
    NoEffects(ops[n]);
    assert ops[..n] + [ops[n]] + ops[n+1..] == ops;
  }

  /** Once the last sync is done no operation is lost, whichever sync was skipped. */
  lemma NothingLost(env: Env, j: Job, n: nat, kept: seq<bool>)
    requires Valid(env, j.c) && (n == 3 || n == 5)
    requires Durable(CommitOps(env, j)[..n] + CommitOps(env, j)[n+1..], kept)
    ensures var ops := CommitOps(env, j)[..n] + CommitOps(env, j)[n+1..];
      forall i :: 0 <= i < |ops| && Effective(ops[i]) ==> kept[i]
  {
    var all, b := CommitOps(env, j), BaseOf(env, j.c);
    var ops := all[..n] + all[n+1..];
    assert ops[6] == SyncRaw(b) && ops[5] == MoveNote(j.c.id, b) && kept[5];
    assert ops[0] == all[0] && ops[1] == all[1] && ops[2] == all[2];
    var move := if n == 3 then 3 else 4;
    assert ops[move] == MovePayload(j.c.id, b) && kept[move];
    assert Carries(ops[move], ops[0]) && Carries(ops[5], ops[1]) && Carries(ops[5], ops[2]);
  }

  lemma FinishedIsSafe(env: Env, d: Disk, j: Job, n: nat, kept: seq<bool>)
    requires Ready(env, j) && Safe(env, d) && Stage(env, d, j, 0) && (n == 3 || n == 5)
    requires Durable(CommitOps(env, j)[..n] + CommitOps(env, j)[n+1..], kept)
    ensures Safe(env, Masked(d, CommitOps(env, j)[..n] + CommitOps(env, j)[n+1..], kept))
  {
    var all, full := CommitOps(env, j), seq(8, i => true);
    NothingLost(env, j, n, kept);
    AllKept(d, all[..n] + all[n+1..], kept);
    SkippedSync(env, j, n);
    AllKept(d, all, full);
    assert all[..8] == all;
    PowerLossSafe(env, d, j, 8, full);
  }

  lemma OrphanWithoutNote(env: Env, e: Disk, id: string, b: string, c: Capture)
    requires Sound(env) && Valid(env, c) && c.id == id && BaseOf(env, c) == b
    requires b in e.raw && b !in e.sidecars && id !in e.notes
    ensures !Safe(env, e)
  {
    forall i ensures !Supports(env, e, i, b) {
      assert Supports(env, e, i, b) ==> i == id;
    }
  }

  function NoteLostMask(m: nat): seq<bool>
    requires 1 <= m
  {
    [true, false, false, true] + seq(m - 1, i => false)
  }

  lemma NoteLostHistory(env: Env, j: Job, m: nat)
    requires Valid(env, j.c) && 1 <= m <= 3
    ensures Durable(History(env, j, 3, m), NoteLostMask(m))
    ensures History(env, j, 3, m)[..4] == CommitOps(env, j)[..3] + [CommitOps(env, j)[4]]
  {
    var ops := History(env, j, 3, m);
    assert ops == (CommitOps(env, j)[..3] + CommitOps(env, j)[4..])[..3+m];
    assert |NoteLostMask(m)| == |ops|;
    assert forall i :: 0 <= i < |ops| ==> !ops[i].SyncStaging?;
  }

  /** Recovery moved a payload whose staged sidecar never reached the disk. */
  lemma NoteLost(env: Env, d: Disk, j: Job, m: nat)
    requires Sound(env) && Ready(env, j) && Safe(env, d) && Stage(env, d, j, 0) && 1 <= m <= 3
    ensures !SafeAfterLoss(env, d, History(env, j, 3, m))
  {
    var ops, kept, b := History(env, j, 3, m), NoteLostMask(m), BaseOf(env, j.c);
    NoteLostHistory(env, j, m);
    OrphanStays(d, ops, kept, 4);
    var e := Do(Do(d, NamePayload(j.body, j.c.id)), MovePayload(j.c.id, b));
    assert Masked(d, ops[..4], kept[..4]) == e by {
      assert ops[..4][..3] == CommitOps(env, j)[..3] && kept[..4][..3] == [true, false, false];
      LossShort(d, j, env);
    }
    assert b in d.sidecars ==> Paired(env, d, b);
    OrphanWithoutNote(env, e, j.c.id, b, j.c);
  }

  lemma LossShort(d: Disk, j: Job, env: Env)
    requires Valid(env, j.c)
    ensures Masked(d, CommitOps(env, j)[..3], [true, false, false]) == Do(d, NamePayload(j.body, j.c.id))
  {
    var ops := CommitOps(env, j)[..3];
    assert ops[..2][..1] == [NamePayload(j.body, j.c.id)] && [true, false, false][..2][..1] == [true];
    assert Masked(d, ops[..2][..1], [true]) == Do(Masked(d, [], []), ops[0]);
    assert Masked(d, ops[..2], [true, false]) == Masked(d, ops[..2][..1], [true]);
  }

  /** Operations that are lost, or only sync, change nothing. */
  lemma {:induction false} OrphanStays(d: Disk, ops: seq<Op>, kept: seq<bool>, n: nat)
    requires n <= |ops| == |kept| && forall i :: n <= i < |ops| ==> !kept[i] || !Effective(ops[i])
    ensures Masked(d, ops, kept) == Masked(d, ops[..n], kept[..n])
    decreases |ops|
  {
    if n < |ops| {
      var k := |ops| - 1;
      OrphanStays(d, ops[..k], kept[..k], n);
      assert ops[..k][..n] == ops[..n] && kept[..k][..n] == kept[..n];
    } else {
      assert ops[..n] == ops && kept[..n] == kept;
    }
  }

  /** Recovery published the sidecar of a payload whose move never reached the disk. */
  lemma PayloadLost(env: Env, d: Disk, j: Job)
    requires Ready(env, j) && Safe(env, d) && Stage(env, d, j, 0)
    ensures !SafeAfterLoss(env, d, History(env, j, 5, 1))
  {
    assert History(env, j, 5, 1) == SyncSkipped(env, j);
    assert Durable(SyncSkipped(env, j), MOVE_LOST);
    MoveLost(env, d, j);
  }

  /** For every cut of the commit and of its recovery: a power loss leaves raw/ safe whatever it takes, exactly outside
      the two exposed windows. */
  lemma RecoveryPowerLossExactly(env: Env, d: Disk, j: Job, n: nat, m: nat)
    requires Sound(env) && Ready(env, j) && Safe(env, d) && Stage(env, d, j, 0) && n <= 8
      && m <= |RecoveryOps(env, j, n)|
    ensures SafeAfterLoss(env, d, History(env, j, n, m)) <==> !Exposed(n, m)
  {
    var ops := History(env, j, n, m);
    if n == 3 && 1 <= m <= 3 {
      NoteLost(env, d, j, m);
    } else if n == 5 && m == 1 {
      PayloadLost(env, d, j);
    } else {
      forall kept | Durable(ops, kept) ensures Safe(env, Masked(d, ops, kept)) {
        UnexposedIsSafe(env, d, j, n, m, kept);
      }
    }
  }

  lemma UnexposedIsSafe(env: Env, d: Disk, j: Job, n: nat, m: nat, kept: seq<bool>)
    requires Ready(env, j) && Safe(env, d) && Stage(env, d, j, 0) && n <= 8 && m <= |RecoveryOps(env, j, n)|
    requires !Exposed(n, m) && Durable(History(env, j, n, m), kept)
    ensures Safe(env, Masked(d, History(env, j, n, m), kept))
  {
    var all, ops := CommitOps(env, j), History(env, j, n, m);
    if (n == 3 && m == 4) || (n == 5 && m == 2) {
      assert RecoveryOps(env, j, n)[..m] == all[n+1..];
      FinishedIsSafe(env, d, j, n, kept);
    } else {
      var k := if n == 4 || n == 6 then n + m else n;
      assert ops == all[..k];
      PowerLossSafe(env, d, j, k, kept);
    }
  }

  // ---- the directories of a commit ----

  /** The directory a path lies in: what precedes its last slash. */
  function Parent(p: string): (d: string)
    ensures p != "" ==> |d| < |p|
  {
    if p == "" then ""
    else if p[|p|-1] == '/' then p[..|p|-1] else Parent(p[..|p|-1])
  }

  /** `dir` is one of the directories on the way to `p`. */
  predicate Above(dir: string, p: string)
    decreases |p|
  {
    p != "" && (dir == Parent(p) || Above(dir, Parent(p)))
  }

  lemma {:induction false} AboveIsShorter(dir: string, p: string)
    requires Above(dir, p)
    ensures |dir| <= |Parent(p)|
    decreases |p|
  {
    if dir != Parent(p) { AboveIsShorter(dir, Parent(p)); }
  }

  /** The files and the directories there are. */
  datatype Tree = Tree(disk: Disk, dirs: set<string>)

  datatype Act = MakeDirectory(dir: string) | OnFiles(op: Op)

  function DoAct(t: Tree, a: Act): Tree {
    match a
    case MakeDirectory(dir) => t.(dirs := t.dirs + {dir})
    case OnFiles(op) => t.(disk := Do(t.disk, op))
  }

  /** MkdirAll makes the missing directories; then come the first `n` file operations of the commit. */
  function CommitActs(env: Env, j: Job, missing: seq<string>, n: nat): (acts: seq<Act>)
    requires Valid(env, j.c) && n <= 8
    ensures |acts| == |missing| + n
  {
    seq(|missing|, i requires 0 <= i < |missing| => MakeDirectory(missing[i]))
    + seq(n, i requires 0 <= i < n => OnFiles(CommitOps(env, j)[i]))
  }

  /** Syncing a directory makes the entries in it durable: of files, and of directories made in it. */
  predicate CoversAct(sync: Act, a: Act) {
    sync.OnFiles? && match a
      case OnFiles(op) => Covers(sync.op, op)
      case MakeDirectory(dir) => sync.op.SyncRaw? && Parent(sync.op.base) == Parent(dir)
  }

  predicate ActsSurvive(acts: seq<Act>, kept: seq<bool>) {
    |kept| == |acts| && forall i, k :: 0 <= i < k < |acts| && CoversAct(acts[k], acts[i]) ==> kept[i]
  }

  function MaskedActs(t: Tree, acts: seq<Act>, kept: seq<bool>): Tree
    requires |kept| == |acts|
  {
    if |acts| == 0 then t
    else
      var n := |acts| - 1;
      var e := MaskedActs(t, acts[..n], kept[..n]);
      if kept[n] then DoAct(e, acts[n]) else e
  }

  ghost predicate Reachable(t: Tree, b: string) {
    forall dir :: Above(dir, b) ==> dir in t.dirs
  }

  /** What is left of raw/: the files in a directory that is gone are gone. */
  ghost function Left(t: Tree): Disk {
    t.disk.(raw := map b | b in t.disk.raw && Reachable(t, b) :: t.disk.raw[b],
            sidecars := map b | b in t.disk.sidecars && Reachable(t, b) :: t.disk.sidecars[b])
  }

  /** A directory takes both files of a pair with it. */
  lemma LeftIsSafe(env: Env, t: Tree)
    requires Safe(env, t.disk)
    ensures Safe(env, Left(t))
  {
    var e := Left(t);
    forall b | b in e.sidecars ensures Paired(env, e, b) {
      SamePair(env, t.disk, e, b);
    }
    forall b | b in e.raw && b !in e.sidecars ensures exists id :: Supports(env, e, id, b) {
      var id :| Supports(env, t.disk, id, b);
      SameSupport(env, t.disk, e, id, b);
    }
  }

  /** The files are as the surviving file operations leave them, the directories those that survived. */
  lemma {:induction false} LossByParts(env: Env, t: Tree, j: Job, missing: seq<string>, n: nat, kept: seq<bool>)
    requires Valid(env, j.c) && n <= 8 && |kept| == |missing| + n
    ensures MaskedActs(t, CommitActs(env, j, missing, n), kept)
      == Tree(Masked(t.disk, CommitOps(env, j)[..n], kept[|missing|..]),
              MaskedActs(t, CommitActs(env, j, missing, 0), kept[..|missing|]).dirs)
    decreases n
  {
    var acts, m := CommitActs(env, j, missing, n), |missing|;
    if n == 0 {
      DirectoriesOnly(env, t, j, missing, kept);
      assert kept[..m] == kept;
    } else {
      LossByParts(env, t, j, missing, n - 1, kept[..m+n-1]);
      assert acts[..m+n-1] == CommitActs(env, j, missing, n - 1);
      assert CommitOps(env, j)[..n][..n-1] == CommitOps(env, j)[..n-1];
      assert kept[..m+n-1][..m] == kept[..m] && kept[..m+n-1][m..] == kept[m..][..n-1];
    }
  }

  lemma {:induction false} DirectoriesOnly(env: Env, t: Tree, j: Job, missing: seq<string>, kept: seq<bool>)
    requires Valid(env, j.c) && |kept| == |missing|
    ensures MaskedActs(t, CommitActs(env, j, missing, 0), kept).disk == t.disk
    ensures (forall i :: 0 <= i < |kept| ==> !kept[i]) ==> MaskedActs(t, CommitActs(env, j, missing, 0), kept) == t
  {
    var m := |missing|;
    if m > 0 {
      DirectoriesOnly(env, t, j, missing[..m-1], kept[..m-1]);
      assert CommitActs(env, j, missing, 0)[..m-1] == CommitActs(env, j, missing[..m-1], 0);
    }
  }

  lemma SurviveByParts(env: Env, j: Job, missing: seq<string>, n: nat, kept: seq<bool>)
    requires Valid(env, j.c) && n <= 8 && ActsSurvive(CommitActs(env, j, missing, n), kept)
    ensures Survives(CommitOps(env, j)[..n], kept[|missing|..])
  {
    var acts, m, ops := CommitActs(env, j, missing, n), |missing|, CommitOps(env, j)[..n];
    forall i, k | 0 <= i < k < n && Covers(ops[k], ops[i]) ensures kept[m..][i] {
      assert acts[m+i] == OnFiles(ops[i]) && acts[m+k] == OnFiles(ops[k]);
      assert CoversAct(acts[m+k], acts[m+i]);
    }
  }

  /** With directories made on the way, raw/ is still safe after a power loss at any point of the commit. */
  lemma LossWithDirectoriesSafe(env: Env, t: Tree, j: Job, missing: seq<string>, n: nat, kept: seq<bool>)
    requires Ready(env, j) && Safe(env, t.disk) && Stage(env, t.disk, j, 0)
    requires n <= 8 && ActsSurvive(CommitActs(env, j, missing, n), kept)
    ensures Safe(env, Left(MaskedActs(t, CommitActs(env, j, missing, n), kept)))
  {
    SurviveByParts(env, j, missing, n, kept);
    PowerLossSafe(env, t.disk, j, n, kept[|missing|..]);
    LossByParts(env, t, j, missing, n, kept);
    LeftIsSafe(env, MaskedActs(t, CommitActs(env, j, missing, n), kept));
  }

  /** The directories MkdirAll has to make for a path. */
  ghost predicate Missing(t: Tree, b: string, missing: seq<string>) {
    "" in t.dirs && forall dir :: dir in missing <==> Above(dir, b) && dir !in t.dirs
  }

  /** Both files of the capture are where the commit put them. */
  predicate Committed(d: Disk, b: string, j: Job) {
    b in d.raw && d.raw[b] == j.bytes && b in d.sidecars && d.sidecars[b] == Decoded(j.c)
  }

  ghost predicate AlwaysCommitted(env: Env, t: Tree, j: Job, missing: seq<string>)
    requires Valid(env, j.c)
  {
    forall kept :: ActsSurvive(CommitActs(env, j, missing, 8), kept) ==>
      Committed(Left(MaskedActs(t, CommitActs(env, j, missing, 8), kept)), BaseOf(env, j.c), j)
  }

  /** A finished commit outlasts every power loss exactly when it made no directory: the entry of a new directory is
      never synced, so the first captures of an hour can vanish with it. */
  lemma DurableExactly(env: Env, t: Tree, j: Job, missing: seq<string>)
    requires Ready(env, j) && Safe(env, t.disk) && Stage(env, t.disk, j, 0) && Missing(t, BaseOf(env, j.c), missing)
    ensures AlwaysCommitted(env, t, j, missing) <==> |missing| == 0
  {
    var acts := CommitActs(env, j, missing, 8);
    if |missing| == 0 {
      forall kept | ActsSurvive(acts, kept) ensures Committed(Left(MaskedActs(t, acts, kept)), BaseOf(env, j.c), j) {
        NothingMissing(env, t, j, missing, kept);
      }
    } else {
      DirectoryLost(env, t, j, missing);
    }
  }

  lemma NothingMissing(env: Env, t: Tree, j: Job, missing: seq<string>, kept: seq<bool>)
    requires Ready(env, j) && Safe(env, t.disk) && Stage(env, t.disk, j, 0) && Missing(t, BaseOf(env, j.c), missing)
    requires |missing| == 0 && ActsSurvive(CommitActs(env, j, missing, 8), kept)
    ensures Committed(Left(MaskedActs(t, CommitActs(env, j, missing, 8), kept)), BaseOf(env, j.c), j)
  {
    var ops, b := CommitOps(env, j), BaseOf(env, j.c);
    SurviveByParts(env, j, missing, 8, kept);
    LossByParts(env, t, j, missing, 8, kept);
    assert kept[|missing|..] == kept && ops[..8] == ops;
    assert Covers(ops[3], ops[0]) && Covers(ops[3], ops[1]) && Covers(ops[3], ops[2]);
    assert Covers(ops[5], ops[4]) && Covers(ops[7], ops[6]);
    LossAnywhere(env, t.disk, j, 8, kept);
    SurvivedIsMasked(env, t.disk, j, kept);
    assert MaskedActs(t, CommitActs(env, j, missing, 0), kept[..|missing|]) == t;
    assert forall dir :: Above(dir, b) ==> dir !in missing;
  }

  /** The loss of the directories alone. */
  lemma DirectoryLost(env: Env, t: Tree, j: Job, missing: seq<string>)
    requires Valid(env, j.c) && Missing(t, BaseOf(env, j.c), missing) && |missing| > 0
    ensures !AlwaysCommitted(env, t, j, missing)
  {
    var acts, b, m := CommitActs(env, j, missing, 8), BaseOf(env, j.c), |missing|;
    var kept := seq(m, i => false) + seq(8, i => true);
    forall i, k | 0 <= i < k < |acts| && CoversAct(acts[k], acts[i]) ensures kept[i] {
      if i < m {
        assert acts[i] == MakeDirectory(missing[i]) && missing[i] in missing;
        assert k >= m && acts[k] == OnFiles(CommitOps(env, j)[k-m]);
        AboveIsShorter(missing[i], b);
      }
    }
    assert ActsSurvive(acts, kept);
    LossByParts(env, t, j, missing, 8, kept);
    DirectoriesOnly(env, t, j, missing, kept[..m]);
    assert missing[0] in missing;
    assert !Reachable(MaskedActs(t, acts, kept), b);
  }
}
