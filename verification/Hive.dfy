/** The hive partition directory a revision is published under, and its base64url key. */
module Hive {
  import opened Prelude
  import opened Text

  type byte = b: int | 0 <= b < 256
  type Bytes = seq<byte>

  datatype Error = DatasetInvalid | StreamNotConfigured
  datatype Result = Ok(dir: string) | Err(error: Error)

  // ---- unpadded base64url, section 5 of RFC 4648 ----

  function Sextet(v: int): (c: char)
    requires 0 <= v < 64
    ensures ValueOf(c) == Some(v)
    ensures SafeChar(c) && c != '/'
  {
    if v < 26 then 'A' + v as char
    else if v < 52 then 'a' + (v - 26) as char
    else if v < 62 then '0' + (v - 52) as char
    else if v == 62 then '-' else '_'
  }

  function ValueOf(c: char): (v: Option<int>)
    ensures v.Some? ==> 0 <= v.value < 64
  {
    if 'A' <= c <= 'Z' then Some(c as int - 'A' as int)
    else if 'a' <= c <= 'z' then Some(c as int - 'a' as int + 26)
    else if '0' <= c <= '9' then Some(c as int - '0' as int + 52)
    else if c == '-' then Some(62)
    else if c == '_' then Some(63)
    else None
  }

  function Encode(b: Bytes): (s: string)
    ensures forall c :: c in s ==> SafeChar(c) && c != '/'
    decreases |b|
  {
    if |b| == 0 then ""
    else if |b| == 1 then [Sextet(b[0] / 4), Sextet(b[0] % 4 * 16)]
    else if |b| == 2 then [Sextet(b[0] / 4), Sextet(b[0] % 4 * 16 + b[1] / 16), Sextet(b[1] % 16 * 4)]
    else [Sextet(b[0] / 4), Sextet(b[0] % 4 * 16 + b[1] / 16), Sextet(b[1] % 16 * 4 + b[2] / 64), Sextet(b[2] % 64)]
         + Encode(b[3..])
  }

  function Decode(s: string): (b: Option<Bytes>)
    decreases |s|
  {
    if |s| == 0 then Some([])
    else if |s| == 1 then None
    else
      var w, x := ValueOf(s[0]), ValueOf(s[1]);
      if w.None? || x.None? then None
      else if |s| == 2 then Some([w.value * 4 + x.value / 16])
      else
        var y := ValueOf(s[2]);
        if y.None? then None
        else if |s| == 3 then Some([w.value * 4 + x.value / 16, x.value % 16 * 16 + y.value / 4])
        else
          var z, rest := ValueOf(s[3]), Decode(s[4..]);
          if z.None? || rest.None? then None
          else Some([w.value * 4 + x.value / 16, x.value % 16 * 16 + y.value / 4, y.value % 4 * 64 + z.value]
            + rest.value)
  }

  /** Splitting three bytes into sextets and putting them together again. */
  lemma Regroup(x: int, y: int, z: int)
    requires 0 <= x < 256 && 0 <= y < 256 && 0 <= z < 256
    ensures var p, q, r, s := x / 4, x % 4 * 16 + y / 16, y % 16 * 4 + z / 64, z % 64;
      && 0 <= p < 64 && 0 <= q < 64 && 0 <= r < 64 && 0 <= s < 64
      && p * 4 + q / 16 == x && q % 16 * 16 + r / 4 == y && r % 4 * 64 + s == z
  {
  }

  lemma DecodeGroup(x: byte, y: byte, z: byte, t: string, rest: Bytes)
    requires Decode(t) == Some(rest)
    ensures Decode([Sextet(x / 4), Sextet(x % 4 * 16 + y / 16), Sextet(y % 16 * 4 + z / 64), Sextet(z % 64)] + t)
      == Some([x, y, z] + rest)
  {
    Regroup(x, y, z);
    var s := [Sextet(x / 4), Sextet(x % 4 * 16 + y / 16), Sextet(y % 16 * 4 + z / 64), Sextet(z % 64)] + t;
    assert s[4..] == t && |s| >= 4;
  }

  lemma DecodePair(x: byte, y: byte)
    ensures Decode([Sextet(x / 4), Sextet(x % 4 * 16 + y / 16), Sextet(y % 16 * 4)]) == Some([x, y])
  {
    Regroup(x, y, 0);
  }

  lemma DecodeOne(x: byte)
    ensures Decode([Sextet(x / 4), Sextet(x % 4 * 16)]) == Some([x])
  {
    Regroup(x, 0, 0);
  }

  /** Decoding is a left inverse of encoding. */
  lemma {:induction false} DecodeEncode(b: Bytes)
    ensures Decode(Encode(b)) == Some(b)
    decreases |b|
  {
    if |b| >= 3 {
      DecodeEncode(b[3..]);
      DecodeGroup(b[0], b[1], b[2], Encode(b[3..]), b[3..]);
      assert b == [b[0], b[1], b[2]] + b[3..];
    } else if |b| == 2 {
      DecodePair(b[0], b[1]);
      assert b == [b[0], b[1]];
    } else if |b| == 1 {
      DecodeOne(b[0]);
      assert b == [b[0]];
    }
  }

  /** The test vectors of section 10 of RFC 4648, unpadded, and one for the two characters of the URL-safe alphabet. */
  lemma EncodeVectors()
    ensures Encode([102]) == "Zg" && Encode([102, 111]) == "Zm8" && Encode([102, 111, 111]) == "Zm9v"
    ensures Encode([102, 111, 111, 98]) == "Zm9vYg" && Encode([251, 255, 254]) == "-__-"
  {
    assert [102, 111, 111][3..] == [] && [251, 255, 254][3..] == [];
    assert [102, 111, 111, 98][3..] == [98] && Encode([98]) == "Yg";
  }

  lemma EncodeInjective(a: Bytes, b: Bytes)
    requires Encode(a) == Encode(b)
    ensures a == b
  {
    DecodeEncode(a);
    DecodeEncode(b);
  }

  // ---- the directory ----

  datatype Manifest = Manifest(sourceId: string, streamId: string, expectedKind: string, archiveDate: string,
                               sanitizedUrl: Bytes, revision: int)

  /** The configured sanitized URL of each stream. */
  type Config = map<(string, string), Bytes>

  function FeedType(kind: string): (t: Option<string>)
    ensures t.Some? ==> t.value != "" && '/' !in t.value && Safe(t.value)
  {
    if kind == "vehicle_position" then Some("vehicle_positions")
    else if kind == "trip_update" then Some("trip_updates")
    else if kind == "alert" then Some("service_alerts")
    else if kind == "mixed" || kind == "auto" then Some("mixed")
    else None
  }

  predicate IsDigit(c: char) {
    '0' <= c <= '9'
  }

  /** `^\d{4}-\d{2}-\d{2}$` */
  predicate DatePattern(s: string) {
    && |s| == 10 && s[4] == '-' && s[7] == '-'
    && forall i :: 0 <= i < 10 && i != 4 && i != 7 ==> IsDigit(s[i])
  }

  predicate SafeChar(c: char) {
    'A' <= c <= 'Z' || 'a' <= c <= 'z' || IsDigit(c) || c == '_' || c == '.' || c == '=' || c == '-'
  }

  /** `^[A-Za-z0-9_.=-]+$` */
  predicate Safe(segment: string) {
    |segment| > 0 && forall c :: c in segment ==> SafeChar(c)
  }

  function Sanitized(m: Manifest, cfg: Config): Option<Bytes> {
    if m.sanitizedUrl != [] then Some(m.sanitizedUrl)
    else if (m.sourceId, m.streamId) in cfg then Some(cfg[(m.sourceId, m.streamId)])
    else None
  }

  function Segments(feedType: string, date: string, url: Bytes, revision: nat): seq<string> {
    [feedType, "date=" + date, "base64url=" + Encode(url), "revision=" + Decimal(revision)]
  }

  function TrimRight(s: string, c: char): string {
    if |s| > 0 && s[|s|-1] == c then TrimRight(s[..|s|-1], c) else s
  }

  /** hiveDir: each check in the program's order, then the segment check over the joined path. */
  function HiveDir(destBase: string, m: Manifest, cfg: Config): Result {
    var feedType := FeedType(m.expectedKind);
    if feedType.None? then Err(DatasetInvalid)
    else if !DatePattern(m.archiveDate) then Err(DatasetInvalid)
    else if m.revision < 1 then Err(DatasetInvalid)
    else
      var url := Sanitized(m, cfg);
      if url.None? then Err(StreamNotConfigured)
      else
        var dir := JoinChar(Segments(feedType.value, m.archiveDate, url.value, m.revision), '/');
        if exists s :: s in SplitChar(dir, '/') && !Safe(s) then Err(DatasetInvalid)
        else Ok(TrimRight(destBase, '/') + "/" + dir)
  }

  lemma SafeDigits(n: nat)
    ensures forall c :: c in Decimal(n) ==> SafeChar(c) && c != '/'
  {
  }

  lemma SafeDate(date: string)
    requires DatePattern(date)
    ensures forall c :: c in date ==> SafeChar(c) && c != '/'
  {
  }

  lemma SegmentsSafe(feedType: string, date: string, url: Bytes, revision: nat)
    requires Safe(feedType) && '/' !in feedType && DatePattern(date)
    ensures forall s :: s in Segments(feedType, date, url, revision) ==> Safe(s) && '/' !in s
  {
    SafeDigits(revision);
    SafeDate(date);
    assert Safe("date=") && Safe("base64url=") && Safe("revision=");
  }

  /** Once the earlier checks pass the segment check never fires: the directory fails exactly for an
      unmapped kind, a malformed date, a revision below one, or no URL in manifest or configuration. */
  lemma SegmentCheckNeverFires(destBase: string, m: Manifest, cfg: Config)
    ensures HiveDir(destBase, m, cfg).Ok? <==>
      FeedType(m.expectedKind).Some? && DatePattern(m.archiveDate) && m.revision >= 1 && Sanitized(m, cfg).Some?
    ensures HiveDir(destBase, m, cfg) == Err(StreamNotConfigured) <==>
      FeedType(m.expectedKind).Some? && DatePattern(m.archiveDate) && m.revision >= 1 && Sanitized(m, cfg).None?
  {
    if FeedType(m.expectedKind).Some? && DatePattern(m.archiveDate) && m.revision >= 1 && Sanitized(m, cfg).Some? {
      var segments := Segments(FeedType(m.expectedKind).value, m.archiveDate, Sanitized(m, cfg).value, m.revision);
      SegmentsSafe(FeedType(m.expectedKind).value, m.archiveDate, Sanitized(m, cfg).value, m.revision);
      SplitJoin(segments, '/');
    }
  }

  /** The directory, spelled out: the feed type of the kind, the date, the encoded URL of the manifest or else of the
      configured stream, and the revision. */
  lemma HiveDirExactly(destBase: string, m: Manifest, cfg: Config)
    ensures
      var feed := if m.expectedKind == "vehicle_position" then "vehicle_positions"
                  else if m.expectedKind == "trip_update" then "trip_updates"
                  else if m.expectedKind == "alert" then "service_alerts"
                  else if m.expectedKind == "mixed" || m.expectedKind == "auto" then "mixed" else "";
      var configured := (m.sourceId, m.streamId) in cfg;
      HiveDir(destBase, m, cfg) ==
        if feed == "" || m.revision < 1 || |m.archiveDate| != 10
           || (exists i :: 0 <= i < 10 && (if i == 4 || i == 7 then m.archiveDate[i] != '-'
                                           else !('0' <= m.archiveDate[i] <= '9')))
          then Err(DatasetInvalid)
        else if m.sanitizedUrl == [] && !configured then Err(StreamNotConfigured)
        else
          var url := if m.sanitizedUrl != [] then m.sanitizedUrl else cfg[(m.sourceId, m.streamId)];
          Ok(TrimRight(destBase, '/') + "/"
             + (feed + "/" + ("date=" + m.archiveDate) + "/" + ("base64url=" + Encode(url)) + "/"
                + ("revision=" + Decimal(m.revision))))
  {
    if HiveDir(destBase, m, cfg).Ok? { DirectoryJoined(destBase, m, cfg); }
    SegmentCheckNeverFires(destBase, m, cfg);
  }

  lemma DirectoryJoined(destBase: string, m: Manifest, cfg: Config)
    requires HiveDir(destBase, m, cfg).Ok?
    ensures FeedType(m.expectedKind).Some? && Sanitized(m, cfg).Some? && m.revision >= 1
    ensures HiveDir(destBase, m, cfg)
      == Ok(TrimRight(destBase, '/') + "/"
            + (FeedType(m.expectedKind).value + "/" + ("date=" + m.archiveDate) + "/"
               + ("base64url=" + Encode(Sanitized(m, cfg).value)) + "/" + ("revision=" + Decimal(m.revision))))
  {
    FourJoined(FeedType(m.expectedKind).value, "date=" + m.archiveDate, "base64url=" + Encode(Sanitized(m, cfg).value),
               "revision=" + Decimal(m.revision));
  }

  lemma FourJoined(a: string, b: string, c: string, d: string)
    ensures JoinChar([a, b, c, d], '/') == a + "/" + b + "/" + c + "/" + d
  {
    assert [a, b, c, d][1..] == [b, c, d] && [b, c, d][1..] == [c, d] && [c, d][1..] == [d];
    assert JoinChar([c, d], '/') == c + "/" + d;
    assert JoinChar([b, c, d], '/') == b + "/" + (c + "/" + d);
  }

  lemma SegmentsInjective(f: string, d: string, u: Bytes, r: nat, f': string, d': string, u': Bytes, r': nat)
    requires Segments(f, d, u, r) == Segments(f', d', u', r')
    ensures f == f' && d == d' && u == u' && r == r'
  {
    var s, t := Segments(f, d, u, r), Segments(f', d', u', r');
    assert s[0] == t[0] && s[1] == t[1] && s[2] == t[2] && s[3] == t[3];
    assert s[1][5..] == d && t[1][5..] == d';
    assert s[2][10..] == Encode(u) && t[2][10..] == Encode(u');
    assert s[3][9..] == Decimal(r) && t[3][9..] == Decimal(r');
    EncodeInjective(u, u');
    DecimalInjective(r, r');
  }

  /** Two revisions share a directory under one destination exactly when they agree on feed type, date,
      sanitized URL and revision number. */
  lemma DirectoryIdentity(destBase: string, m: Manifest, n: Manifest, cfg: Config)
    requires HiveDir(destBase, m, cfg).Ok? && HiveDir(destBase, n, cfg).Ok?
    ensures HiveDir(destBase, m, cfg) == HiveDir(destBase, n, cfg) <==>
      && FeedType(m.expectedKind) == FeedType(n.expectedKind) && m.archiveDate == n.archiveDate
      && Sanitized(m, cfg) == Sanitized(n, cfg) && m.revision == n.revision
  {
    SegmentCheckNeverFires(destBase, m, cfg);
    SegmentCheckNeverFires(destBase, n, cfg);
    var s := Segments(FeedType(m.expectedKind).value, m.archiveDate, Sanitized(m, cfg).value, m.revision);
    var t := Segments(FeedType(n.expectedKind).value, n.archiveDate, Sanitized(n, cfg).value, n.revision);
    SegmentsSafe(FeedType(m.expectedKind).value, m.archiveDate, Sanitized(m, cfg).value, m.revision);
    SegmentsSafe(FeedType(n.expectedKind).value, n.archiveDate, Sanitized(n, cfg).value, n.revision);
    SplitJoin(s, '/');
    SplitJoin(t, '/');
    var base := TrimRight(destBase, '/') + "/";
    if HiveDir(destBase, m, cfg) == HiveDir(destBase, n, cfg) {
      assert (base + JoinChar(s, '/'))[|base|..] == JoinChar(s, '/');
      assert (base + JoinChar(t, '/'))[|base|..] == JoinChar(t, '/');
      SegmentsInjective(FeedType(m.expectedKind).value, m.archiveDate, Sanitized(m, cfg).value, m.revision,
                        FeedType(n.expectedKind).value, n.archiveDate, Sanitized(n, cfg).value, n.revision);
    }
  }

  /** A manifest that records its URL keeps its directory under every later configuration. */
  lemma StableOnceRecorded(destBase: string, m: Manifest, before: Config, after: Config)
    requires m.sanitizedUrl != []
    ensures HiveDir(destBase, m, before) == HiveDir(destBase, m, after)
  {
  }

  /** The directory does not name the stream: two streams fetching one URL collide. */
  lemma StreamsOfOneUrlCollide(destBase: string, cfg: Config)
    ensures var m := Manifest("a", "one", "alert", "2026-08-12", [104], 1);
      var n := Manifest("b", "two", "alert", "2026-08-12", [104], 1);
      m != n && HiveDir(destBase, m, cfg).Ok? && HiveDir(destBase, m, cfg) == HiveDir(destBase, n, cfg)
  {
    var m := Manifest("a", "one", "alert", "2026-08-12", [104], 1);
    var n := Manifest("b", "two", "alert", "2026-08-12", [104], 1);
    assert DatePattern("2026-08-12");
    SegmentCheckNeverFires(destBase, m, cfg);
    SegmentCheckNeverFires(destBase, n, cfg);
    DirectoryIdentity(destBase, m, n, cfg);
  }
}
