/** The identity check of a sidecar and the paths it fixes. */
module RawPaths {
  import opened Prelude
  import opened Text
  import opened RawStore

  const SIDECAR_FORMAT: int := 1
  const ZERO_TIME: int := -62_135_596_800_000_000_000

  /** The characters the check is meant to refuse, and those it refuses as the raw string it is written as. */
  const INTENDED: set<char> := {'/', '\\', '\0'}
  const LITERAL: set<char> := {'/', '\\', 'x', '0'}

  /** The time zone database: local date and hour of an instant. */
  type Zones = (string, int) -> Option<(string, string)>

  predicate Hex(s: string) {
    forall i :: 0 <= i < |s| ==> '0' <= s[i] <= '9' || 'a' <= s[i] <= 'f' || 'A' <= s[i] <= 'F'
  }

  function Directory(c: Capture, hour: string): string {
    "raw/source=" + c.sourceId + "/stream=" + c.streamId + "/date=" + c.archiveDate + "/hour=" + hour
  }

  function Name(c: Capture): string
    requires |c.bodySha256| >= 12
  {
    c.id + "_" + c.bodySha256[..12]
  }

  /** validateCapturePaths: the base path when every check passes. */
  function Check(zones: Zones, forbidden: set<char>, c: Capture): Option<string> {
    if c.formatVersion != SIDECAR_FORMAT || c.id == "" || c.sourceId == "" || c.streamId == ""
       || (exists ch :: ch in c.id + c.sourceId + c.streamId && ch in forbidden) || |c.bodySha256| != 64 then None
    else if !Hex(c.bodySha256) then None
    else
      var local := zones(c.timezone, c.scheduledAt);
      if local.None? || c.scheduledAt == ZERO_TIME then None
      else if local.value.0 != c.archiveDate then None
      else
        var base := Directory(c, local.value.1) + "/" + Name(c);
        if c.rawPath != base + ".pb" || c.sidecarPath != base + ".json" then None else Some(base)
  }

  function Environment(digest: Bytes -> string, zones: Zones, forbidden: set<char>): Env {
    Env(digest, c => Check(zones, forbidden, c))
  }

  lemma SlashInside(p: string, a: string, q: string, b: string)
    requires p + "/" + a == q + "/" + b && |a| < |b|
    ensures '/' in b
  {
    var s := p + "/" + a;
    assert '/' == s[|s|-|a|-1] == (q + "/" + b)[|s|-|a|-1] == b[|b|-|a|-1];
  }

  lemma LastSegment(p: string, a: string, q: string, b: string)
    requires p + "/" + a == q + "/" + b && '/' !in a && '/' !in b
    ensures a == b
  {
    var s := p + "/" + a;
    if |a| < |b| {
      SlashInside(p, a, q, b);
    } else if |b| < |a| {
      SlashInside(q, b, p, a);
    } else {
      assert s[|s|-|a|..] == a && (q + "/" + b)[|s|-|b|..] == b;
    }
  }

  lemma NameHasNoSlash(zones: Zones, forbidden: set<char>, c: Capture)
    requires '/' in forbidden && Check(zones, forbidden, c).Some?
    ensures '/' !in Name(c)
  {
    assert forall ch :: ch in c.id ==> ch in c.id + c.sourceId + c.streamId;
  }

  lemma BaseNamesCapture(zones: Zones, forbidden: set<char>, c: Capture, d: Capture)
    requires '/' in forbidden && Check(zones, forbidden, c).Some?
      && Check(zones, forbidden, c) == Check(zones, forbidden, d)
    ensures c.id == d.id
  {
    NameHasNoSlash(zones, forbidden, c);
    NameHasNoSlash(zones, forbidden, d);
    LastSegment(Directory(c, zones(c.timezone, c.scheduledAt).value.1), Name(c),
      Directory(d, zones(d.timezone, d.scheduledAt).value.1), Name(d));
    assert Name(c)[..|Name(c)|-13] == c.id && Name(d)[..|Name(d)|-13] == d.id;
  }

  /** The program's check names each capture by its base path, under the intended and the literal set alike. */
  lemma CheckIsSound(digest: Bytes -> string, zones: Zones, forbidden: set<char>)
    requires '/' in forbidden
    ensures Sound(Environment(digest, zones, forbidden))
  {
    var env := Environment(digest, zones, forbidden);
    forall c, d | Valid(env, c) && Valid(env, d) && BaseOf(env, c) == BaseOf(env, d) ensures c.id == d.id {
      BaseNamesCapture(zones, forbidden, c, d);
    }
  }

  /** A capture whose paths were set by Commit passes the check exactly when its identity does. */
  lemma CommittedPathsAccepted(zones: Zones, forbidden: set<char>, c: Capture, hour: string)
    requires |c.bodySha256| == 64 && Hex(c.bodySha256) && c.formatVersion == SIDECAR_FORMAT
      && c.scheduledAt != ZERO_TIME
    requires zones(c.timezone, c.scheduledAt) == Some((c.archiveDate, hour))
    requires c.rawPath == Directory(c, hour) + "/" + Name(c) + ".pb"
      && c.sidecarPath == Directory(c, hour) + "/" + Name(c) + ".json"
    ensures Check(zones, forbidden, c).Some? <==>
      c.id != "" && c.sourceId != "" && c.streamId != "" && forall ch :: ch in c.id + c.sourceId + c.streamId ==>
        ch !in forbidden
  {
  }

  lemma HexDigits(s: string)
    ensures Hex(s) <==> forall ch :: ch in s ==> '0' <= ch <= '9' || 'a' <= ch <= 'f' || 'A' <= ch <= 'F'
  {
    if forall ch :: ch in s ==> '0' <= ch <= '9' || 'a' <= ch <= 'f' || 'A' <= ch <= 'F' {
      forall i | 0 <= i < |s| ensures '0' <= s[i] <= '9' || 'a' <= s[i] <= 'f' || 'A' <= s[i] <= 'F' {
        assert s[i] in s;
      }
    }
  }

  lemma Joined(source: string, stream: string, date: string, hour: string, id: string, hash: string, extension: string)
    ensures "raw/source=" + source + "/stream=" + stream + "/date=" + date + "/hour=" + hour + "/" + (id + "_" + hash)
            + extension
         == "raw/source=" + source + "/stream=" + stream + "/date=" + date + "/hour=" + hour + "/" + id + "_" + hash
            + extension
  {
    var front := "raw/source=" + source + "/stream=" + stream + "/date=" + date + "/hour=" + hour + "/";
    assert front + (id + "_" + hash) == front + id + "_" + hash;
  }

  /** What any record must be to pass, however it came to be on disk: known version, a whole identity without forbidden
      characters, a hash of 64 hex digits, a real instant whose local date is the archive date, and both files in the
      directory of its source, stream, date and hour, named by its ID and the first twelve digits of its hash. */
  lemma AcceptedExactly(zones: Zones, forbidden: set<char>, c: Capture)
    ensures Check(zones, forbidden, c).Some? <==>
      && c.formatVersion == 1 && c.id != "" && c.sourceId != "" && c.streamId != ""
      && (forall ch :: ch in c.id || ch in c.sourceId || ch in c.streamId ==> ch !in forbidden)
      && |c.bodySha256| == 64
      && (forall ch :: ch in c.bodySha256 ==> '0' <= ch <= '9' || 'a' <= ch <= 'f' || 'A' <= ch <= 'F')
      && zones(c.timezone, c.scheduledAt).Some? && c.scheduledAt != -62_135_596_800_000_000_000
      && var (date, hour) := zones(c.timezone, c.scheduledAt).value;
         date == c.archiveDate
         && c.rawPath == "raw/source=" + c.sourceId + "/stream=" + c.streamId + "/date=" + date + "/hour=" + hour + "/"
           + c.id + "_" + c.bodySha256[..12] + ".pb"
         && c.sidecarPath == "raw/source=" + c.sourceId + "/stream=" + c.streamId + "/date=" + date + "/hour=" + hour
           + "/" + c.id + "_" + c.bodySha256[..12] + ".json"
  {
    assert forall ch :: ch in c.id + c.sourceId + c.streamId <==> ch in c.id || ch in c.sourceId || ch in c.streamId;
    HexDigits(c.bodySha256);
    var local := zones(c.timezone, c.scheduledAt);
    if |c.bodySha256| == 64 && local.Some? && local.value.0 == c.archiveDate {
      Joined(c.sourceId, c.streamId, c.archiveDate, local.value.1, c.id, c.bodySha256[..12], ".pb");
      Joined(c.sourceId, c.streamId, c.archiveDate, local.value.1, c.id, c.bodySha256[..12], ".json");
    }
  }

  // ---- the forbidden set as the program spells it ----

  /** An identity holding a zero or an x fails the check as spelled, whatever else it holds. */
  lemma LiteralSetRefuses(zones: Zones, c: Capture, ch: char)
    requires ch in LITERAL && (ch in c.id || ch in c.sourceId || ch in c.streamId)
    ensures Check(zones, LITERAL, c).None?
  {
    assert ch in c.id + c.sourceId + c.streamId;
  }

  /** NewID: the UTC instant as 20060102T150405.000000000Z, an underscore and random hex. */
  function NewId(year: nat, month: nat, day: nat, hour: nat, minute: nat, second: nat, nanos: nat,
                 random: string): string {
    Digits(year, 4) + (Digits(month, 2) + Digits(day, 2) + "T" + Digits(hour, 2) + Digits(minute, 2) + Digits(second, 2)
    + "." + Digits(nanos, 9) + "Z_" + random)
  }

  /** Every capture named in a year written with a zero, such as 2026, is refused by the literal set: its
      interrupted commit is never finished and its lost row never registered. */
  lemma GeneratedIdsRefused(zones: Zones, c: Capture, year: nat, month: nat, day: nat, hour: nat, minute: nat,
                            second: nat,
                            nanos: nat, random: string)
    requires '0' in Digits(year, 4) && c.id == NewId(year, month, day, hour, minute, second, nanos, random)
    ensures Check(zones, LITERAL, c).None?
  {
    assert c.id[..4] == Digits(year, 4);
    LiteralSetRefuses(zones, c, '0');
  }

  lemma Year2026()
    ensures '0' in Digits(2026, 4)
  {
    assert Digits(20, 2) == Digits(2, 1) + [Digit(0)];
    assert Digits(202, 3) == Digits(20, 2) + [Digit(2)];
    assert Digits(2026, 4)[1] == '0';
  }
}
