/** What the forbidden set, as the check spells it, does to captures on their way: recovery passes over some. */
module RawLiteral {
  import opened Prelude
  import opened Text
  import opened RawStore
  import opened RawPaths
  import opened Recovery

  /** The check as it is meant to be: it says what a capture is. */
  function Intended(digest: Bytes -> string, zones: Zones): Env {
    Environment(digest, zones, INTENDED)
  }

  /** The check as recovery applies it: the set as spelled, and no NUL, which no path can hold. */
  function Spelled(digest: Bytes -> string, zones: Zones): Env {
    Environment(digest, zones, LITERAL + {'\0'})
  }

  /** Whether the identity has none of the four characters of the set as spelled. */
  predicate Plain(c: Capture) {
    forall ch :: ch in c.id + c.sourceId + c.streamId ==> ch !in LITERAL
  }

  /** Whatever the check as spelled accepts is meant to be accepted; of what is meant to be accepted it refuses exactly
      the captures that are not plain. */
  lemma SpelledAccepts(digest: Bytes -> string, zones: Zones, c: Capture)
    ensures SameCheck(Spelled(digest, zones), Intended(digest, zones), c)
    ensures Valid(Intended(digest, zones), c) ==> (Valid(Spelled(digest, zones), c) <==> Plain(c))
  {
  }

  /** So on every disk recovery as spelled works towards what is meant. */
  lemma SpelledAgrees(digest: Bytes -> string, zones: Zones, d: Disk)
    ensures Sound(Intended(digest, zones)) && Sound(Spelled(digest, zones))
    ensures Agrees(Spelled(digest, zones), Intended(digest, zones), d)
  {
    CheckIsSound(digest, zones, INTENDED);
    CheckIsSound(digest, zones, LITERAL + {'\0'});
    forall c: Capture ensures SameCheck(Spelled(digest, zones), Intended(digest, zones), c) {
      SpelledAccepts(digest, zones, c);
    }
  }

  /** The payload is in raw/, and nothing that could complete it is left. */
  ghost predicate StrandedAt(meant: Env, d: Disk, b: string) {
    b in d.raw && b !in d.sidecars && forall id :: !Supports(meant, d, id, b)
  }

  /** What recovery and then the removal of the staging files in `payloads` and `notes` made of a pending capture that
      recovery accepts or refuses. */
  ghost predicate Outcome(meant: Env, e: Disk, payloads: set<string>, notes: set<string>, c: Capture, accepted: bool) {
    Valid(meant, c) && var b := BaseOf(meant, c);
      if accepted then Completed(meant, e, c)
      else
        && b !in e.sidecars
        && (Pending(meant, e, c) <==> c.id !in notes && (b in e.raw || c.id !in payloads))
        && (StrandedAt(meant, e, b) <==> c.id in notes && b in e.raw)
  }

  lemma OutcomeExactly(env: Env, meant: Env, d: Disk, e: Disk, f: Disk, payloads: set<string>, notes: set<string>,
                       c: Capture)
    requires Sound(meant) && Forward(env, meant, d, e, d.notes.Keys) && Pending(meant, d, c)
    requires f.raw == e.raw && f.sidecars == e.sidecars && f.notes == e.notes - notes
      && f.payloads == e.payloads - payloads
    ensures Outcome(meant, f, payloads, notes, c, Valid(env, c))
  {
    assert Carried(env, meant, e, c, d.notes.Keys);
    if !Valid(env, c) { RefusedOutcome(meant, e, f, payloads, notes, c); }
  }

  lemma RefusedOutcome(meant: Env, e: Disk, f: Disk, payloads: set<string>, notes: set<string>, c: Capture)
    requires Sound(meant) && Pending(meant, e, c)
    requires f.raw == e.raw && f.sidecars == e.sidecars && f.notes == e.notes - notes
      && f.payloads == e.payloads - payloads
    ensures Outcome(meant, f, payloads, notes, c, false)
  {
    var b := BaseOf(meant, c);
    SupportIsOwn(meant, f, c);
    if c.id !in notes {
      assert f.notes[c.id] == Decoded(c);
      assert b in f.raw ==> Supports(meant, f, c.id, b);
    } else {
      assert c.id !in f.notes;
    }
  }

  /** Only its own staged sidecar can complete a payload. */
  lemma SupportIsOwn(meant: Env, d: Disk, c: Capture)
    requires Sound(meant) && Valid(meant, c)
    ensures forall id :: Supports(meant, d, id, BaseOf(meant, c)) ==> id == c.id
  {
  }

  ghost predicate Outcomes(env: Env, meant: Env, d: Disk, e: Disk, rows: map<string, Capture>, payloads: set<string>,
                           notes: set<string>) {
    forall c :: Pending(meant, d, c) ==>
      Outcome(meant, e, payloads, notes, c, Valid(env, c)) && (Valid(env, c) ==> c.id in rows)
  }

  /** Restarts with the check `env`, each dying or failing anywhere, then the removal of expired staging files. raw/ is
      safe after the restarts, no committed capture is lost, and once a restart finishes, a pending capture is committed
      with its row if and only if the check accepts it. One it refuses stays as it was, so removing its staged sidecar
      strands a payload that is in raw/. */
  method StartThenExpire(m: Machine, env: Env, ghost meant: Env, restarts: seq<(nat, nat -> bool)>,
                         bodies: set<string>, payloads: set<string>, notes: set<string>)
    returns (ok: bool)
    requires Sound(env) && Sound(meant) && Agrees(env, meant, m.disk) && Safe(meant, m.disk)
    modifies m
    ensures |restarts| > 0 && Undisturbed(restarts[|restarts|-1], Work(old(m.disk))) ==> ok
    ensures forall c :: Completed(meant, old(m.disk), c) ==> Completed(meant, m.disk, c)
    ensures ok ==> Outcomes(env, meant, old(m.disk), m.disk, m.rows, payloads, notes)
    ensures notes == {} ==> Safe(meant, m.disk)
  {
    ghost var first := m.disk;
    ok := m.RecoverThroughCrashes(env, meant, restarts);
    ghost var between := m.disk;
    m.RemoveExpiredStaging(meant, bodies, payloads, notes);
    if ok { OutcomesFollow(env, meant, first, between, m.disk, m.rows, payloads, notes); }
  }

  lemma OutcomesFollow(env: Env, meant: Env, d: Disk, e: Disk, f: Disk, rows: map<string, Capture>,
                       payloads: set<string>, notes: set<string>)
    requires Sound(meant) && Forward(env, meant, d, e, d.notes.Keys) && Recovered(env, meant, d, e, rows)
    requires f.raw == e.raw && f.sidecars == e.sidecars && f.notes == e.notes - notes
      && f.payloads == e.payloads - payloads
    ensures Outcomes(env, meant, d, f, rows, payloads, notes)
  {
    forall c | Pending(meant, d, c)
      ensures Outcome(meant, f, payloads, notes, c, Valid(env, c)) && (Valid(env, c) ==> c.id in rows)
    {
      OutcomeExactly(env, meant, d, e, f, payloads, notes, c);
    }
  }

  /** The program as it is does so with the check as spelled, and what that accepts is exactly what is plain. */
  method StartAsSpelled(m: Machine, digest: Bytes -> string, zones: Zones, restarts: seq<(nat, nat -> bool)>,
                        bodies: set<string>, payloads: set<string>, notes: set<string>)
    returns (ok: bool)
    requires Safe(Intended(digest, zones), m.disk)
    modifies m
    ensures |restarts| > 0 && Undisturbed(restarts[|restarts|-1], Work(old(m.disk))) ==> ok
    ensures forall c :: Completed(Intended(digest, zones), old(m.disk), c) ==>
      Completed(Intended(digest, zones), m.disk, c)
    ensures ok ==> forall c :: Pending(Intended(digest, zones), old(m.disk), c) ==>
      Outcome(Intended(digest, zones), m.disk, payloads, notes, c, Plain(c)) && (Plain(c) ==> c.id in m.rows)
    ensures notes == {} ==> Safe(Intended(digest, zones), m.disk)
  {
    ghost var first := m.disk;
    SpelledAgrees(digest, zones, m.disk);
    ok := StartThenExpire(m, Spelled(digest, zones), Intended(digest, zones), restarts, bodies, payloads, notes);
    if ok { PlainOutcomes(digest, zones, first, m.disk, m.rows, payloads, notes); }
  }

  lemma PlainOutcomes(digest: Bytes -> string, zones: Zones, d: Disk, e: Disk, rows: map<string, Capture>,
                      payloads: set<string>, notes: set<string>)
    requires Outcomes(Spelled(digest, zones), Intended(digest, zones), d, e, rows, payloads, notes)
    ensures forall c :: Pending(Intended(digest, zones), d, c) ==>
      Outcome(Intended(digest, zones), e, payloads, notes, c, Plain(c)) && (Plain(c) ==> c.id in rows)
  {
    forall c | Pending(Intended(digest, zones), d, c)
      ensures Outcome(Intended(digest, zones), e, payloads, notes, c, Plain(c)) && (Plain(c) ==> c.id in rows)
    {
      SpelledAccepts(digest, zones, c);
    }
  }

  /** A disk that holds nothing but the staged body of the job. */
  function Staged(j: Job): Disk {
    Disk(map[j.body := j.bytes], map[], map[], map[], map[])
  }

  /** The disk when the process dies after the payload's move: operations 0 to 4 of the commit. */
  function CutDisk(j: Job, b: string): Disk {
    Disk(map[], map[], map[j.c.id := Decoded(j.c)], map[b := j.bytes], map[])
  }

  lemma FirstFive(env: Env, d: Disk, j: Job, kept: seq<bool>)
    requires Valid(env, j.c) && kept == [true, true, true, true, true]
    ensures var ops := CommitOps(env, j);
      Survived(env, d, j, kept) == Do(Do(Do(Do(Do(d, ops[0]), ops[1]), ops[2]), ops[3]), ops[4])
  {
    OneMore(env, d, j, []);
    assert [] + [true] == [true] && [true] + [true] == [true, true] && [true, true] + [true] == [true, true, true];
    assert [true, true, true] + [true] == [true, true, true, true] && [true, true, true, true] + [true] == kept;
    OneMore(env, d, j, [true]);
    OneMore(env, d, j, [true, true]);
    OneMore(env, d, j, [true, true, true]);
    OneMore(env, d, j, [true, true, true, true]);
  }

  lemma OneMore(env: Env, d: Disk, j: Job, kept: seq<bool>)
    requires Valid(env, j.c) && |kept| < 8
    ensures Survived(env, d, j, kept + [true]) == Do(Survived(env, d, j, kept), CommitOps(env, j)[|kept|])
  {
    assert (kept + [true])[..|kept|] == kept;
  }

  lemma CutReached(env: Env, j: Job)
    requires Ready(env, j)
    ensures CutDisk(j, BaseOf(env, j.c)) == Survived(env, Staged(j), j, [true, true, true, true, true])
    ensures Safe(env, CutDisk(j, BaseOf(env, j.c)))
  {
    var d, id, b := Staged(j), j.c.id, BaseOf(env, j.c);
    var kept := [true, true, true, true, true];
    var d1 := Disk(map[], map[id := j.bytes], map[], map[], map[]);
    var d2 := d1.(notes := map[id := Torn]);
    var d3 := d1.(notes := map[id := Decoded(j.c)]);
    assert Do(d, CommitOps(env, j)[0]) == d1 by {
      assert d.bodies - {j.body} == map[] && d.payloads[id := j.bytes] == map[id := j.bytes];
    }
    assert Do(d1, CommitOps(env, j)[1]) == d2 by { assert d1.notes[id := Torn] == map[id := Torn]; }
    assert Do(d2, CommitOps(env, j)[2]) == d3 by { assert d2.notes[id := Decoded(j.c)] == map[id := Decoded(j.c)]; }
    assert Do(d3, CommitOps(env, j)[4]) == CutDisk(j, b) by {
      assert d3.payloads - {id} == map[] && d3.raw[b := j.bytes] == map[b := j.bytes];
    }
    FirstFive(env, d, j, kept);
    assert Supports(env, CutDisk(j, BaseOf(env, j.c)), j.c.id, BaseOf(env, j.c));
  }

  /** A capture that is not plain, cut there, is on its way; recovery as spelled finds nothing on that disk to do; and
      without the staged sidecar the payload is stranded. */
  lemma CutIsStranded(digest: Bytes -> string, zones: Zones, j: Job)
    requires Ready(Intended(digest, zones), j) && !Plain(j.c)
    ensures var b := BaseOf(Intended(digest, zones), j.c);
      var d := CutDisk(j, b);
      && Pending(Intended(digest, zones), d, j.c)
      && NothingValid(Spelled(digest, zones), d)
      && StrandedAt(Intended(digest, zones), d.(notes := d.notes - {j.c.id}), b)
  {
    var env, b := Intended(digest, zones), BaseOf(Intended(digest, zones), j.c);
    CutReached(env, j);
    SpelledAccepts(digest, zones, j.c);
    SpelledAgrees(digest, zones, CutDisk(j, b));
    SupportIsOwn(env, CutDisk(j, b).(notes := CutDisk(j, b).notes - {j.c.id}), j.c);
  }

  // ---- a capture of 2026 ----

  function Hours(): Zones {
    (zone: string, at: int) => Some(("2026-08-11", "00"))
  }

  function Sha(): string {
    seq(64, i => 'a')
  }

  /** A capture whose ID was generated on 11 August 2026. */
  function Capture2026(random: string): Capture {
    Placed(NewId(2026, 8, 11, 0, 0, 0, 0, random))
  }

  /** A capture with the paths its commit gives it. */
  function Placed(id: string): Capture {
    var c := Capture(SIDECAR_FORMAT, id, "t", "a", "b", 0, "UTC", "2026-08-11", Sha(), "", "");
    c.(rawPath := Directory(c, "00") + "/" + Name(c) + ".pb",
      sidecarPath := Directory(c, "00") + "/" + Name(c) + ".json")
  }

  predicate Unforbidden(s: string) {
    forall ch :: ch in s ==> ch !in INTENDED
  }

  lemma DigitsUnforbidden(n: nat, w: nat)
    ensures Unforbidden(Digits(n, w))
  {
  }

  lemma IdUnforbidden(random: string)
    requires Unforbidden(random)
    ensures Unforbidden(NewId(2026, 8, 11, 0, 0, 0, 0, random)) && '0' in NewId(2026, 8, 11, 0, 0, 0, 0, random)
  {
    DigitsUnforbidden(2026, 4);
    DigitsUnforbidden(8, 2);
    DigitsUnforbidden(11, 2);
    DigitsUnforbidden(0, 2);
    DigitsUnforbidden(0, 9);
    assert Unforbidden("T") && Unforbidden(".") && Unforbidden("Z_");
    Year2026();
    assert forall ch :: ch in Digits(2026, 4) ==> ch in NewId(2026, 8, 11, 0, 0, 0, 0, random);
  }

  lemma ShaIsHex()
    ensures |Sha()| == 64 && Hex(Sha())
  {
  }

  /** The check as intended accepts the capture; as spelled it refuses it. */
  lemma Year2026Refused(random: string)
    requires Unforbidden(random)
    ensures Check(Hours(), INTENDED, Capture2026(random)).Some? && Check(Hours(), LITERAL, Capture2026(random)).None?
  {
    IdUnforbidden(random);
    Accepted2026(NewId(2026, 8, 11, 0, 0, 0, 0, random));
    Year2026();
    GeneratedIdsRefused(Hours(), Capture2026(random), 2026, 8, 11, 0, 0, 0, 0, random);
  }

  lemma Accepted2026(id: string)
    requires Unforbidden(id) && id != ""
    ensures Check(Hours(), INTENDED, Placed(id)).Some?
  {
    ShaIsHex();
    assert Unforbidden("a") && Unforbidden("b");
    CommittedPathsAccepted(Hours(), INTENDED, Placed(id), "00");
  }

  /** So its commit, cut after the payload's move, is never finished by recovery as spelled, and its payload is stranded
      once the staged sidecar expires. */
  lemma Year2026Stranded(random: string, bytes: Bytes, digest: Bytes -> string)
    requires Unforbidden(random) && digest(bytes) == Sha()
    ensures var j := Job("body", bytes, Capture2026(random));
      && Ready(Intended(digest, Hours()), j)
      && var d := CutDisk(j, BaseOf(Intended(digest, Hours()), j.c));
         && NothingValid(Spelled(digest, Hours()), d)
         && StrandedAt(Intended(digest, Hours()), d.(notes := d.notes - {j.c.id}),
                       BaseOf(Intended(digest, Hours()), j.c))
  {
    Year2026Refused(random);
    IdUnforbidden(random);
    CutIsStranded(digest, Hours(), Job("body", bytes, Capture2026(random)));
  }
}
