/** The Parquet artifact of a revision: what the writers put in it and what the streaming validators accept. */
module Artifact {
  import opened Prelude
  import opened Flatten

  type Bytes = seq<bv8>

  datatype Read = Content(body: Bytes) | Missing | Unreadable

  /** A capture row with its provenance. */
  datatype Capture = Capture(id: string, sourceId: string, streamId: string, archiveDate: string, timezone: string,
                             rawPath: string, url: string, scheduledAt: int, completedAt: int, sha256: string,
                             decodedLength: int, transportComplete: bool, parseStatus: string, flags: seq<string>,
                             feedTimestamp: Option<nat>, entityCount: Option<int>)

  /** A row of the one-row-per-capture layout; `feed` stands for the projected header and entities. */
  datatype NestedRow = NestedRow(captureId: string, bodySha256: string, entityCount: Option<int>, feed: Option<Message>,
                                 body: Bytes)

  datatype Data = Nested(nested: seq<NestedRow>) | Flat(flat: seq<Row>)

  /** The raw store as compaction finds it, SHA-256, the feed decoder, and the encoded artifact's hash and size. */
  datatype Env = Env(raw: string -> Read, digest: Bytes -> string, decode: Bytes -> Option<Message>,
                     hash: Data -> string, size: Data -> nat)

  const RAW_MISSING := "raw_missing"
  const HASH_MISMATCH := "hash_mismatch"
  const READ_ERROR := "read_error"

  datatype Exclusion = Exclusion(id: string, reason: string)

  datatype Verified = Body(bytes: Bytes) | Failed(reason: string)

  /** readVerifiedCapture with exclusionReason. */
  function ReadVerified(env: Env, c: Capture): (v: Verified)
    ensures v.Body? ==> env.raw(c.rawPath) == Content(v.bytes) && env.digest(v.bytes) == c.sha256
    ensures v.Failed? ==> v.reason in {RAW_MISSING, HASH_MISMATCH, READ_ERROR}
    ensures v == Failed("raw_missing") <==> env.raw(c.rawPath) == Missing
    ensures v == Failed("read_error") <==> env.raw(c.rawPath) == Unreadable
  {
    match env.raw(c.rawPath)
    case Missing => Failed(RAW_MISSING)
    case Unreadable => Failed(READ_ERROR)
    case Content(body) => if env.digest(body) == c.sha256 then Body(body) else Failed(HASH_MISMATCH)
  }

  predicate Readable(env: Env, c: Capture) {
    ReadVerified(env, c).Body?
  }

  /** The decoded feed of a capture whose payload can be read and verified. */
  function FeedOf(env: Env, c: Capture): Option<Message> {
    match ReadVerified(env, c)
    case Body(bytes) => env.decode(bytes)
    case Failed(_) => None
  }

  function ProvenanceOf(c: Capture): Provenance {
    Provenance(c.rawPath, c.url, c.completedAt, c.scheduledAt, c.sourceId, c.streamId, c.id, c.archiveDate, c.timezone,
               c.parseStatus, c.flags)
  }

  // ---- what an artifact of a day's captures should hold ----

  function Included(env: Env, captures: seq<Capture>): seq<Capture> {
    if |captures| == 0 then []
    else
      var c := captures[|captures|-1];
      Included(env, captures[..|captures|-1]) + (if Readable(env, c) then [c] else [])
  }

  function Exclusions(env: Env, captures: seq<Capture>): seq<Exclusion> {
    if |captures| == 0 then []
    else
      var c := captures[|captures|-1];
      Exclusions(env, captures[..|captures|-1])
      + (match ReadVerified(env, c) case Body(_) => [] case Failed(reason) => [Exclusion(c.id, reason)])
  }

  function EntityTotal(captures: seq<Capture>): int {
    if |captures| == 0 then 0 else EntityTotal(captures[..|captures|-1]) + GetOr(captures[|captures|-1].entityCount, 0)
  }

  /** A missing entity count counts as none. */
  lemma EntityTotalAdds(captures: seq<Capture>, c: Capture)
    ensures EntityTotal([]) == 0
    ensures EntityTotal(captures + [c])
      == EntityTotal(captures) + if c.entityCount.Some? then c.entityCount.value else 0
  {
    assert (captures + [c])[..|captures|] == captures;
  }

  function StopTotalOf(m: Option<Message>): nat {
    if m.None? then 0 else StopTotal(m.value.entities)
  }

  function StopSum(env: Env, captures: seq<Capture>): nat {
    if |captures| == 0 then 0
    else StopSum(env, captures[..|captures|-1]) + StopTotalOf(FeedOf(env, captures[|captures|-1]))
  }

  function RowsOf(env: Env, c: Capture): seq<Row> {
    Flattened(FeedOf(env, c), ProvenanceOf(c))
  }

  function FlatRows(env: Env, captures: seq<Capture>): seq<Row> {
    if |captures| == 0 then [] else FlatRows(env, captures[..|captures|-1]) + RowsOf(env, captures[|captures|-1])
  }

  function NestedRowOf(env: Env, c: Capture, bytes: Bytes): NestedRow {
    NestedRow(c.id, c.sha256, c.entityCount, env.decode(bytes), bytes)
  }

  function NestedRows(env: Env, captures: seq<Capture>): seq<NestedRow> {
    if |captures| == 0 then []
    else
      var c := captures[|captures|-1];
      NestedRows(env, captures[..|captures|-1])
      + (match ReadVerified(env, c)
         case Body(bytes) => [NestedRowOf(env, c, bytes)]
         case Failed(_) => [])
  }

  function Repeat(id: string, n: nat): seq<string> {
    seq(n, _ => id)
  }

  /** Each capture's ID, once per row it projects to, in capture order. */
  function Expand(env: Env, captures: seq<Capture>): seq<string> {
    if |captures| == 0 then []
    else
      var c := captures[|captures|-1];
      Expand(env, captures[..|captures|-1]) + Repeat(c.id, |RowsOf(env, c)|)
  }

  function RowIds(rows: seq<Row>): (ids: seq<string>)
    ensures |ids| == |rows|
  {
    seq(|rows|, i requires 0 <= i < |rows| => rows[i].entity.provenance.captureId)
  }

  /** The rows a reader delivered, batch after batch. */
  function Joined<T>(batches: seq<seq<T>>): seq<T> {
    if |batches| == 0 then [] else Joined(batches[..|batches|-1]) + batches[|batches|-1]
  }

  // ---- the writers ----

  /** The rows of one capture and its stop time updates; none when its payload does not decode. */
  method ProjectCapture(env: Env, c: Capture, bytes: Bytes) returns (rows: seq<Row>, stops: nat)
    requires ReadVerified(env, c) == Body(bytes)
    ensures rows == RowsOf(env, c) && stops == StopTotalOf(FeedOf(env, c))
  {
    var message := env.decode(bytes);
    if message.None? {
      return [], 0;
    }
    rows := ProjectTripUpdateStops(message, ProvenanceOf(c));
    stops := CountStopTimeUpdates(message);
  }

  lemma FlatStep(env: Env, captures: seq<Capture>, n: nat)
    requires n < |captures|
    ensures FlatRows(env, captures[..n+1]) == FlatRows(env, captures[..n]) + RowsOf(env, captures[n])
    ensures StopSum(env, captures[..n+1]) == StopSum(env, captures[..n]) + StopTotalOf(FeedOf(env, captures[n]))
    ensures !Readable(env, captures[n]) ==> RowsOf(env, captures[n]) == [] && StopTotalOf(FeedOf(env, captures[n])) == 0
  {
    assert captures[..n+1][..n] == captures[..n];
  }

  lemma IncludedStep(env: Env, captures: seq<Capture>, n: nat)
    requires n < |captures|
    ensures match ReadVerified(env, captures[n])
      case Body(_) =>
        (&& Included(env, captures[..n+1]) == Included(env, captures[..n]) + [captures[n]]
         && Exclusions(env, captures[..n+1]) == Exclusions(env, captures[..n])
         && EntityTotal(Included(env, captures[..n+1]))
            == EntityTotal(Included(env, captures[..n])) + GetOr(captures[n].entityCount, 0))
      case Failed(reason) =>
        (&& Included(env, captures[..n+1]) == Included(env, captures[..n])
         && Exclusions(env, captures[..n+1]) == Exclusions(env, captures[..n]) + [Exclusion(captures[n].id, reason)])
  {
    assert captures[..n+1][..n] == captures[..n];
    var before := Included(env, captures[..n]);
    assert (before + [captures[n]])[..|before|] == before;
  }

  /** What the trip-update writer has accumulated. */
  datatype Written = Written(rows: seq<Row>, entities: int, stops: nat, included: seq<Capture>,
    excluded: seq<Exclusion>)

  function FlatWritten(env: Env, captures: seq<Capture>): Written {
    Written(FlatRows(env, captures), EntityTotal(Included(env, captures)), StopSum(env, captures),
      Included(env, captures),
            Exclusions(env, captures))
  }

  method WriteTripUpdateParquet(env: Env, captures: seq<Capture>) returns (w: Written)
    ensures w == FlatWritten(env, captures)
  {
    w := Written([], 0, 0, [], []);
    for n := 0 to |captures|
      invariant w == FlatWritten(env, captures[..n])
    {
      w := WriteCapture(env, captures, n, w);
    }
    assert captures[..|captures|] == captures;
  }

  /** What one more capture adds. */
  lemma WrittenStep(env: Env, captures: seq<Capture>, n: nat)
    requires n < |captures|
    ensures var c, v := captures[n], ReadVerified(env, captures[n]);
      var before, after := FlatWritten(env, captures[..n]), FlatWritten(env, captures[..n+1]);
      && (v.Failed? ==> after == before.(excluded := before.excluded + [Exclusion(c.id, v.reason)]))
      && (v.Body? ==> after == Written(before.rows + RowsOf(env, c), before.entities + GetOr(c.entityCount, 0),
                                       before.stops + StopTotalOf(FeedOf(env, c)), before.included + [c],
                                         before.excluded))
  {
    IncludedStep(env, captures, n);
    FlatStep(env, captures, n);
    if ReadVerified(env, captures[n]).Failed? {
      var rows := FlatRows(env, captures[..n]);
      assert rows + [] == rows;
    }
  }

  /** One capture of the writer's loop. */
  method WriteCapture(env: Env, captures: seq<Capture>, n: nat, before: Written) returns (w: Written)
    requires n < |captures| && before == FlatWritten(env, captures[..n])
    ensures w == FlatWritten(env, captures[..n+1])
  {
    var c := captures[n];
    WrittenStep(env, captures, n);
    var read := ReadVerified(env, c);
    if read.Failed? {
      return before.(excluded := before.excluded + [Exclusion(c.id, read.reason)]);
    }
    var entities := before.entities;
    if c.entityCount.Some? {
      entities := entities + c.entityCount.value;
    }
    var projected, count := ProjectCapture(env, c, read.bytes);
    w := Written(before.rows + projected, entities, before.stops + count, before.included + [c], before.excluded);
  }

  lemma NestedStep(env: Env, captures: seq<Capture>, n: nat)
    requires n < |captures|
    ensures var v := ReadVerified(env, captures[n]);
      NestedRows(env, captures[..n+1])
      == NestedRows(env, captures[..n]) + (if v.Body? then [NestedRowOf(env, captures[n], v.bytes)] else [])
  {
    assert captures[..n+1][..n] == captures[..n];
  }

  method WriteParquet(env: Env, captures: seq<Capture>)
    returns (rows: seq<NestedRow>, entities: int, included: seq<Capture>, excluded: seq<Exclusion>)
    ensures included == Included(env, captures) && excluded == Exclusions(env, captures)
    ensures rows == NestedRows(env, captures)
    ensures entities == EntityTotal(included)
  {
    rows, entities, included, excluded := [], 0, [], [];
    for n := 0 to |captures|
      invariant included == Included(env, captures[..n]) && excluded == Exclusions(env, captures[..n])
      invariant rows == NestedRows(env, captures[..n])
      invariant entities == EntityTotal(included)
    {
      var c := captures[n];
      IncludedStep(env, captures, n);
      NestedStep(env, captures, n);
      var read := ReadVerified(env, c);
      if read.Failed? {
        excluded := excluded + [Exclusion(c.id, read.reason)];
        continue;
      }
      included := included + [c];
      if c.entityCount.Some? {
        entities := entities + c.entityCount.value;
      }
      rows := rows + [NestedRowOf(env, c, read.bytes)];
    }
    assert captures[..|captures|] == captures;
  }

  // ---- the validators ----

  /** Each ID as often as its count says. */
  function ExpandIds(ids: seq<string>, counts: seq<nat>): seq<string>
    requires |ids| == |counts|
  {
    if |ids| == 0 then []
    else ExpandIds(ids[..|ids|-1], counts[..|ids|-1]) + Repeat(ids[|ids|-1], counts[|ids|-1])
  }

  /** How far the validator is: `done` rows consumed, `left` rows of capture `idx - 1` still to come. */
  predicate At(ids: seq<string>, counts: seq<nat>, done: seq<string>, idx: nat, left: nat) {
    && |ids| == |counts| && idx <= |ids| && (left > 0 ==> idx > 0)
    && done + (if idx > 0 then Repeat(ids[idx-1], left) else []) == ExpandIds(ids[..idx], counts[..idx])
  }

  lemma {:induction false} ExpandPrefix(ids: seq<string>, counts: seq<nat>, i: nat)
    requires i <= |ids| == |counts|
    ensures ExpandIds(ids[..i], counts[..i]) <= ExpandIds(ids, counts)
    decreases |ids|
  {
    var n := |ids| - 1;
    if i <= n {
      assert ids[..n][..i] == ids[..i] && counts[..n][..i] == counts[..i];
      ExpandPrefix(ids[..n], counts[..n], i);
    } else {
      assert ids[..i] == ids && counts[..i] == counts;
    }
  }

  lemma ExpandNext(ids: seq<string>, counts: seq<nat>, i: nat)
    requires i < |ids| == |counts|
    ensures ExpandIds(ids[..i+1], counts[..i+1]) == ExpandIds(ids[..i], counts[..i]) + Repeat(ids[i], counts[i])
  {
    assert ids[..i+1][..i] == ids[..i] && counts[..i+1][..i] == counts[..i];
  }

  lemma ExpandMore(ids: seq<string>, counts: seq<nat>, i: nat, n: nat)
    requires i < |ids| && |counts| == i
    ensures ExpandIds(ids[..i+1], counts + [n]) == ExpandIds(ids[..i], counts) + Repeat(ids[i], n)
  {
    assert ids[..i+1][..i] == ids[..i] && (counts + [n])[..i] == counts;
  }

  /** A row of the capture in hand moves the validator on; any other row is not the next one. */
  lemma RowDecides(ids: seq<string>, counts: seq<nat>, done: seq<string>, idx: nat, left: nat, id: string)
    requires At(ids, counts, done, idx, left) && left > 0
    ensures id == ids[idx-1] ==> At(ids, counts, done + [id], idx, left - 1)
    ensures id != ids[idx-1] ==> !(done + [id] <= ExpandIds(ids, counts))
  {
    var next := ids[idx-1];
    assert Repeat(next, left) == [next] + Repeat(next, left - 1);
    assert done + Repeat(next, left) == (done + [next]) + Repeat(next, left - 1);
    ExpandPrefix(ids, counts, idx);
    assert ExpandIds(ids, counts)[|done|] == next && (done + [id])[|done|] == id;
  }

  /** Moves past finished captures, then matches one row; refuses exactly when the row is not the next one. */
  method CheckRow(ids: seq<string>, expected: seq<nat>, id: string, idx: nat, left: nat, ghost done: seq<string>)
    returns (ok: bool, captureIdx: nat, rowsLeft: nat)
    requires At(ids, expected, done, idx, left)
    ensures ok ==> At(ids, expected, done + [id], captureIdx, rowsLeft)
    ensures !ok ==> !(done + [id] <= ExpandIds(ids, expected))
  {
    captureIdx, rowsLeft := idx, left;
    while rowsLeft == 0
      invariant At(ids, expected, done, captureIdx, rowsLeft)
      decreases |ids| - captureIdx, if rowsLeft == 0 then 1 else 0
    {
      if captureIdx >= |expected| {
        assert ids[..captureIdx] == ids && expected[..captureIdx] == expected;
        return false, captureIdx, rowsLeft;
      }
      ExpandNext(ids, expected, captureIdx);
      rowsLeft := expected[captureIdx];
      captureIdx := captureIdx + 1;
    }
    RowDecides(ids, expected, done, captureIdx, rowsLeft, id);
    if id != ids[captureIdx-1] {
      return false, captureIdx, rowsLeft;
    }
    return true, captureIdx, rowsLeft - 1;
  }

  function IdList(captures: seq<Capture>): (ids: seq<string>)
    ensures |ids| == |captures|
  {
    seq(|captures|, i requires 0 <= i < |captures| => captures[i].id)
  }

  function RowCount(env: Env, c: Capture): nat {
    |RowsOf(env, c)|
  }

  /** The counts are the row counts of readable captures. */
  predicate CountsRows(env: Env, captures: seq<Capture>, counts: seq<nat>) {
    && |counts| == |captures|
    && (|captures| > 0 ==>
        var n := |captures| - 1;
        CountsRows(env, captures[..n], counts[..n]) && Readable(env, captures[n])
          && counts[n] == RowCount(env, captures[n]))
  }

  lemma CountedMore(env: Env, captures: seq<Capture>, i: nat, counts: seq<nat>, n: nat)
    requires i < |captures| && CountsRows(env, captures[..i], counts) && Readable(env, captures[i])
      && n == RowCount(env, captures[i])
    ensures CountsRows(env, captures[..i+1], counts + [n])
  {
    assert captures[..i+1][..i] == captures[..i] && (counts + [n])[..i] == counts;
  }

  lemma {:induction false} ExpandByCounts(env: Env, captures: seq<Capture>, counts: seq<nat>)
    requires CountsRows(env, captures, counts)
    ensures Expand(env, captures) == ExpandIds(IdList(captures), counts)
    ensures forall c :: c in captures ==> Readable(env, c)
  {
    if |captures| > 0 {
      var n := |captures| - 1;
      ExpandByCounts(env, captures[..n], counts[..n]);
      assert IdList(captures)[..n] == IdList(captures[..n]);
      assert forall c :: c in captures ==> c in captures[..n] || c == captures[n];
    }
  }

  /** Decodes one capture again and counts its rows. */
  method CountRows(env: Env, c: Capture) returns (ok: bool, rows: nat)
    ensures ok <==> Readable(env, c)
    ensures ok ==> rows == RowCount(env, c)
  {
    var read := ReadVerified(env, c);
    if read.Failed? {
      return false, 0;
    }
    rows := CountProjectedTripUpdateRows(env.decode(read.bytes));
    ok := true;
  }

  /** The per-capture row counts recomputed from the raw payloads. */
  method Expectations(env: Env, captures: seq<Capture>) returns (ok: bool, expected: seq<nat>, total: nat)
    ensures ok ==> CountsRows(env, captures, expected) && total == |ExpandIds(IdList(captures), expected)|
    ensures !ok ==> exists c :: c in captures && !Readable(env, c)
  {
    ok, expected, total := true, [], 0;
    ghost var ids := IdList(captures);
    for i := 0 to |captures|
      invariant |expected| == i && CountsRows(env, captures[..i], expected)
      invariant total == |ExpandIds(ids[..i], expected)|
    {
      var rows;
      ok, rows := CountRows(env, captures[i]);
      if !ok {
        assert captures[i] in captures;
        return false, [], 0;
      }
      CountedMore(env, captures, i, expected, rows);
      ExpandMore(ids, expected, i, rows);
      expected, total := expected + [rows], total + rows;
    }
    assert ids[..|captures|] == ids && captures[..|captures|] == captures;
    ok := true;
  }

  lemma OneMoreRow(before: seq<string>, rows: seq<string>, i: nat)
    requires i < |rows|
    ensures before + rows[..i] + [rows[i]] == before + rows[..i+1] <= before + rows
  {
  }

  /** One batch of the reader. */
  method CheckBatch(ids: seq<string>, expected: seq<nat>, batch: seq<Row>, idx: nat, left: nat,
                    ghost before: seq<string>)
    returns (ok: bool, captureIdx: nat, rowsLeft: nat)
    requires At(ids, expected, before, idx, left)
    ensures ok ==> At(ids, expected, before + RowIds(batch), captureIdx, rowsLeft)
    ensures !ok ==> !(before + RowIds(batch) <= ExpandIds(ids, expected))
  {
    ok, captureIdx, rowsLeft := true, idx, left;
    ghost var rows, done := RowIds(batch), before;
    for i := 0 to |batch|
      invariant done == before + rows[..i] && At(ids, expected, done, captureIdx, rowsLeft)
    {
      ok, captureIdx, rowsLeft := CheckRow(ids, expected, batch[i].entity.provenance.captureId, captureIdx, rowsLeft,
        done);
      OneMoreRow(before, rows, i);
      done := done + [rows[i]];
      if !ok {
        return;
      }
    }
    assert rows[..|batch|] == rows;
    ok := true;
  }

  lemma RowIdsAppend(a: seq<Row>, b: seq<Row>)
    ensures RowIds(a + b) == RowIds(a) + RowIds(b)
  {
  }

  /** validateTripUpdateParquet: accepts exactly the in-order concatenation of each capture's ID repeated by its
      projected row count, however the reader batches the rows; `fault` is a read error after the last batch. */
  method ValidateTripUpdateParquet(env: Env, batches: seq<seq<Row>>, fault: bool, captures: seq<Capture>)
    returns (ok: bool)
    ensures ok <==>
      && !fault && (forall c :: c in captures ==> Readable(env, c))
      && RowIds(Joined(batches)) == Expand(env, captures)
  {
    var readable, expected, total := Expectations(env, captures);
    if !readable {
      return false;
    }
    ExpandByCounts(env, captures, expected);
    var ids := IdList(captures);
    var captureIdx, rowsLeft, seen := 0, 0, 0;
    for b := 0 to |batches|
      invariant At(ids, expected, RowIds(Joined(batches[..b])), captureIdx, rowsLeft) && seen == |Joined(batches[..b])|
    {
      assert batches[..b+1][..b] == batches[..b];
      ghost var before := RowIds(Joined(batches[..b]));
      RowIdsAppend(Joined(batches[..b]), batches[b]);
      ok, captureIdx, rowsLeft := CheckBatch(ids, expected, batches[b], captureIdx, rowsLeft, before);
      if !ok {
        RowsPrefix(batches, b);
        return;
      }
      seen := seen + |batches[b]|;
    }
    assert batches[..|batches|] == batches;
    ExpandPrefix(ids, expected, captureIdx);
    return !fault && seen == total;
  }

  lemma RowsPrefix(batches: seq<seq<Row>>, b: nat)
    requires b < |batches|
    ensures RowIds(Joined(batches[..b])) + RowIds(batches[b]) <= RowIds(Joined(batches))
  {
    BatchPrefix(batches, b, |batches[b]|);
    assert batches[b][..|batches[b]|] == batches[b];
    RowIdsAppend(Joined(batches[..b]), batches[b]);
  }

  lemma {:induction false} BatchPrefix<T>(batches: seq<seq<T>>, b: nat, i: nat)
    requires b < |batches| && i <= |batches[b]|
    ensures Joined(batches[..b]) + batches[b][..i] <= Joined(batches)
    decreases |batches|
  {
    var front := batches[..|batches|-1];
    if b < |front| {
      assert front[..b] == batches[..b];
      BatchPrefix(front, b, i);
    }
  }

  predicate RowMatches(env: Env, row: NestedRow, c: Capture) {
    row.captureId == c.id && row.bodySha256 == c.sha256 && env.digest(row.body) == c.sha256
      && row.entityCount == c.entityCount
  }

  predicate AllMatch(env: Env, rows: seq<NestedRow>, expected: seq<Capture>) {
    |rows| == |expected| && forall i :: 0 <= i < |rows| ==> RowMatches(env, rows[i], expected[i])
  }

  /** The rows of one batch against the captures from `from` on. */
  method CheckNestedBatch(env: Env, batch: seq<NestedRow>, expected: seq<Capture>, from: nat)
    returns (ok: bool, entities: int)
    requires from <= |expected|
    ensures ok <==> from + |batch| <= |expected| && AllMatch(env, batch, expected[from..from+|batch|])
    ensures ok ==> EntityTotal(expected[..from+|batch|]) == EntityTotal(expected[..from]) + entities
  {
    ok, entities := true, 0;
    for i := 0 to |batch|
      invariant from + i <= |expected| && forall j :: 0 <= j < i ==> RowMatches(env, batch[j], expected[from+j])
      invariant EntityTotal(expected[..from+i]) == EntityTotal(expected[..from]) + entities
    {
      if from + i >= |expected| {
        return false, entities;
      }
      if !RowMatches(env, batch[i], expected[from+i]) {
        if from + |batch| <= |expected| { assert expected[from..from+|batch|][i] == expected[from+i]; }
        return false, entities;
      }
      assert expected[..from+i+1][..from+i] == expected[..from+i];
      entities := entities + GetOr(batch[i].entityCount, 0);
    }
  }

  /** validateParquet: accepts exactly one matching row per capture, in order. */
  method ValidateParquet(env: Env, batches: seq<seq<NestedRow>>, fault: bool, expected: seq<Capture>) returns (ok: bool)
    ensures ok <==> !fault && AllMatch(env, Joined(batches), expected)
  {
    var index: nat, entityTotal := 0, 0;
    for b := 0 to |batches|
      invariant index <= |expected| && AllMatch(env, Joined(batches[..b]), expected[..index])
      invariant entityTotal == EntityTotal(expected[..index])
    {
      assert batches[..b+1][..b] == batches[..b];
      var good, entities := CheckNestedBatch(env, batches[b], expected, index);
      if !good {
        BatchPrefix(batches, b, |batches[b]|);
        assert batches[b][..|batches[b]|] == batches[b];
        if AllMatch(env, Joined(batches), expected) {
          NestedPart(env, Joined(batches), Joined(batches[..b]), batches[b], expected);
        }
        return false;
      }
      NestedExtends(env, Joined(batches[..b]), batches[b], expected);
      index, entityTotal := index + |batches[b]|, entityTotal + entities;
    }
    assert batches[..|batches|] == batches;
    if fault || index != |expected| {
      return false;
    }
    assert expected[..index] == expected;
    var expectedEntities := ExpectedEntities(expected);
    return entityTotal == expectedEntities;
  }

  /** A row that is accepted has the ID, the hash and the entity count of its capture, and a body with that hash; one
      that differs in any of them makes the whole file refused. */
  lemma AcceptedRow(env: Env, rows: seq<NestedRow>, expected: seq<Capture>, i: nat)
    requires i < |rows| == |expected|
    ensures !(rows[i].captureId == expected[i].id && rows[i].bodySha256 == expected[i].sha256
              && env.digest(rows[i].body) == expected[i].sha256 && rows[i].entityCount == expected[i].entityCount) ==>
      !AllMatch(env, rows, expected)
    ensures (forall j :: 0 <= j < |rows| ==>
        rows[j].captureId == expected[j].id && rows[j].bodySha256 == expected[j].sha256
        && env.digest(rows[j].body) == expected[j].sha256 && rows[j].entityCount == expected[j].entityCount) ==>
      AllMatch(env, rows, expected)
  {
    assert !RowMatches(env, rows[i], expected[i]) ==> !AllMatch(env, rows, expected);
  }

  method ExpectedEntities(expected: seq<Capture>) returns (total: int)
    ensures total == EntityTotal(expected)
  {
    total := 0;
    for i := 0 to |expected|
      invariant total == EntityTotal(expected[..i])
    {
      assert expected[..i+1][..i] == expected[..i];
      total := total + GetOr(expected[i].entityCount, 0);
    }
    assert expected[..|expected|] == expected;
  }

  /** A batch that matches where it stands extends the match. */
  lemma NestedExtends(env: Env, rows: seq<NestedRow>, batch: seq<NestedRow>, expected: seq<Capture>)
    requires |rows| + |batch| <= |expected| && AllMatch(env, rows, expected[..|rows|])
    requires AllMatch(env, batch, expected[|rows|..|rows|+|batch|])
    ensures AllMatch(env, rows + batch, expected[..|rows|+|batch|])
  {
    forall i | 0 <= i < |rows| + |batch| ensures RowMatches(env, (rows + batch)[i], expected[i]) {
      if i < |rows| {
        assert RowMatches(env, rows[i], expected[..|rows|][i]);
      } else {
        assert RowMatches(env, batch[i-|rows|], expected[|rows|..|rows|+|batch|][i-|rows|]);
      }
    }
  }

  /** In a whole that matches, every batch matches where it stands. */
  lemma NestedPart(env: Env, all: seq<NestedRow>, rows: seq<NestedRow>, batch: seq<NestedRow>, expected: seq<Capture>)
    requires rows + batch <= all && AllMatch(env, all, expected)
    ensures |rows| + |batch| <= |expected| && AllMatch(env, batch, expected[|rows|..|rows|+|batch|])
  {
    forall i | 0 <= i < |batch| ensures RowMatches(env, batch[i], expected[|rows|+i]) {
      assert all[|rows|+i] == (rows + batch)[|rows|+i] == batch[i];
    }
  }

  // ---- the writers' output is what the validators accept ----

  lemma ExpandAppend(env: Env, captures: seq<Capture>, c: Capture)
    ensures Expand(env, captures + [c]) == Expand(env, captures) + Repeat(c.id, |RowsOf(env, c)|)
  {
    assert (captures + [c])[..|captures|] == captures;
  }

  lemma NoRows(env: Env, c: Capture)
    requires !Readable(env, c)
    ensures RowsOf(env, c) == []
  {
  }

  /** What the writer wrote is what the validator expects of the captures it included. */
  lemma {:induction false} FlatRowsValidate(env: Env, captures: seq<Capture>)
    ensures RowIds(FlatRows(env, captures)) == Expand(env, Included(env, captures))
  {
    if |captures| > 0 {
      var front, c := captures[..|captures|-1], captures[|captures|-1];
      FlatRowsValidate(env, front);
      RowsCarryCapture(env, c);
      RowIdsAppend(FlatRows(env, front), RowsOf(env, c));
      ExpandAppend(env, Included(env, front), c);
      if !Readable(env, c) {
        NoRows(env, c);
        assert FlatRows(env, front) + [] == FlatRows(env, front) && Included(env, front) + [] == Included(env, front);
      }
    }
  }

  /** Every row of a flattened artifact carries the provenance of one of the captures, field by field. */
  lemma {:induction false} RowCarriesProvenance(env: Env, captures: seq<Capture>, row: Row)
    requires row in FlatRows(env, captures)
    ensures exists c :: c in captures && Readable(env, c) && var p := row.entity.provenance;
      && p.captureId == c.id && p.sourceId == c.sourceId && p.streamId == c.streamId
      && p.sourceFile == c.rawPath && p.feedUrl == c.url
      && p.fetchTimestamp == c.completedAt && p.scheduledAt == c.scheduledAt
      && p.archiveDate == c.archiveDate && p.archiveTimezone == c.timezone
      && p.parseStatus == c.parseStatus && p.validationFlags == c.flags
  {
    var front, last := captures[..|captures|-1], captures[|captures|-1];
    assert captures == front + [last];
    if row in FlatRows(env, front) {
      RowCarriesProvenance(env, front, row);
    } else {
      assert row in RowsOf(env, last) && FeedOf(env, last).Some?;
      BlocksCarry(FeedOf(env, last).value.header, ProvenanceOf(last), FeedOf(env, last).value.entities);
    }
  }

  /** Every row a capture projects to carries that capture's ID. */
  lemma RowsCarryCapture(env: Env, c: Capture)
    ensures RowIds(RowsOf(env, c)) == Repeat(c.id, |RowsOf(env, c)|)
  {
    if FeedOf(env, c).Some? {
      BlocksCarry(FeedOf(env, c).value.header, ProvenanceOf(c), FeedOf(env, c).value.entities);
    }
  }

  lemma {:induction false} BlocksCarry(header: Option<Header>, prov: Provenance, entities: seq<Entity>)
    ensures forall row :: row in Blocks(header, prov, entities) ==> row.entity.provenance == prov
  {
    if |entities| > 0 {
      BlocksCarry(header, prov, entities[..|entities|-1]);
    }
  }

  lemma {:induction false} NestedRowsValidate(env: Env, captures: seq<Capture>)
    ensures AllMatch(env, NestedRows(env, captures), Included(env, captures))
  {
    if |captures| > 0 {
      NestedRowsValidate(env, captures[..|captures|-1]);
    }
  }

  lemma {:induction false} IncludedReadable(env: Env, captures: seq<Capture>)
    ensures forall c :: c in Included(env, captures) <==> c in captures && Readable(env, c)
  {
    if |captures| > 0 {
      var front, last := captures[..|captures|-1], captures[|captures|-1];
      IncludedReadable(env, front);
      assert captures == front + [last];
    }
  }

  /** Included and excluded captures partition the inputs, and the exclusions name their reasons. */
  lemma {:induction false} Partition(env: Env, captures: seq<Capture>)
    ensures |Included(env, captures)| + |Exclusions(env, captures)| == |captures|
    ensures forall x :: x in Exclusions(env, captures) <==>
      exists c :: c in captures && !Readable(env, c) && x == Exclusion(c.id, ReadVerified(env, c).reason)
  {
    if |captures| > 0 {
      var front, last := captures[..|captures|-1], captures[|captures|-1];
      Partition(env, front);
      assert captures == front + [last];
      assert forall c :: c in captures <==> c in front || c == last;
    }
  }

  // ---- what a flattened artifact leaves out ----

  predicate DistinctIds(captures: seq<Capture>) {
    forall i, j :: 0 <= i < j < |captures| ==> captures[i].id != captures[j].id
  }

  predicate NamedInArtifact(rows: seq<Row>, id: string) {
    id in RowIds(rows)
  }

  predicate NamedInExclusions(excluded: seq<Exclusion>, id: string) {
    exists x :: x in excluded && x.id == id
  }

  /** A payload with no trip update in it: undecodable, or decoded without a single trip-update entity. */
  predicate Rowless(env: Env, c: Capture) {
    FeedOf(env, c).None? || forall e :: e in FeedOf(env, c).value.entities ==> e.tripUpdate.None?
  }

  lemma {:induction false} RowlessBlocks(header: Option<Header>, prov: Provenance, entities: seq<Entity>)
    ensures Blocks(header, prov, entities) == [] <==> forall e :: e in entities ==> e.tripUpdate.None?
  {
    if |entities| > 0 {
      var front, last := entities[..|entities|-1], entities[|entities|-1];
      RowlessBlocks(header, prov, front);
      assert entities == front + [last];
      assert Block(header, prov, last) == [] <==> last.tripUpdate.None?;
    }
  }

  lemma NamedAppend(rows: seq<Row>, c: Capture, env: Env, id: string)
    ensures NamedInArtifact(rows + RowsOf(env, c), id) <==>
      NamedInArtifact(rows, id) || (c.id == id && RowsOf(env, c) != [])
  {
    RowIdsAppend(rows, RowsOf(env, c));
    RowsCarryCapture(env, c);
    if RowsOf(env, c) != [] { assert Repeat(c.id, |RowsOf(env, c)|)[0] == c.id; }
  }

  lemma {:induction false} NamedExactly(env: Env, captures: seq<Capture>, id: string)
    ensures NamedInArtifact(FlatRows(env, captures), id) <==>
      exists c :: c in captures && c.id == id && RowsOf(env, c) != []
  {
    if |captures| > 0 {
      var front, last := captures[..|captures|-1], captures[|captures|-1];
      NamedExactly(env, front, id);
      NamedAppend(FlatRows(env, front), last, env, id);
      assert forall c :: c in captures <==> c in front || c == last;
    }
  }

  /** A capture of a flattened revision is in the artifact or among the exclusions exactly unless its payload
      reads back intact and holds no trip update: those bytes are in neither. */
  lemma FlattenedCoverage(env: Env, captures: seq<Capture>, c: Capture)
    requires DistinctIds(captures) && c in captures
    ensures NamedInArtifact(FlatRows(env, captures), c.id) || NamedInExclusions(Exclusions(env, captures), c.id)
      <==> !(Readable(env, c) && Rowless(env, c))
  {
    NamedExactly(env, captures, c.id);
    Partition(env, captures);
    assert forall o :: o in captures && o.id == c.id ==> o == c;
    if FeedOf(env, c).Some? {
      RowlessBlocks(FeedOf(env, c).value.header, ProvenanceOf(c), FeedOf(env, c).value.entities);
    }
    if !Readable(env, c) {
      assert Exclusion(c.id, ReadVerified(env, c).reason) in Exclusions(env, captures);
    }
  }

  /** A concrete payload that reads back intact, does not decode, and is in neither. */
  lemma RowlessExample()
    ensures var env := Env(path => Content([]), bytes => "h", bytes => None, data => "d", data => 0);
      var c := Capture("c", "a", "b", "2026-08-11", "UTC", "p", "u", 0, 0, "h", 0, true, "invalid", [], None, None);
      && Readable(env, c)
      && !NamedInArtifact(FlatRows(env, [c]), "c") && !NamedInExclusions(Exclusions(env, [c]), "c")
  {
    var env := Env(path => Content([]), bytes => "h", bytes => None, data => "d", data => 0);
    var c := Capture("c", "a", "b", "2026-08-11", "UTC", "p", "u", 0, 0, "h", 0, true, "invalid", [], None, None);
    FlattenedCoverage(env, [c], c);
  }

  /** The rows of one capture. */
  function RowsNamed(rows: seq<Row>, id: string): seq<Row> {
    if |rows| == 0 then []
    else
      var last := rows[|rows|-1];
      RowsNamed(rows[..|rows|-1], id) + (if last.entity.provenance.captureId == id then [last] else [])
  }

  lemma {:induction false} RowsNamedAppend(a: seq<Row>, b: seq<Row>, id: string)
    ensures RowsNamed(a + b, id) == RowsNamed(a, id) + RowsNamed(b, id)
  {
    if |b| == 0 {
      assert a + b == a;
    } else {
      assert (a + b)[..|a + b|-1] == a + b[..|b|-1];
      RowsNamedAppend(a, b[..|b|-1], id);
    }
  }

  lemma {:induction false} RowsNamedAlike(rows: seq<Row>, own: string, id: string)
    requires forall i :: 0 <= i < |rows| ==> rows[i].entity.provenance.captureId == own
    ensures RowsNamed(rows, id) == if own == id then rows else []
  {
    if |rows| > 0 {
      RowsNamedAlike(rows[..|rows|-1], own, id);
    }
  }

  lemma FlatRowsStep(env: Env, captures: seq<Capture>, id: string)
    requires |captures| > 0
    ensures var front, last := captures[..|captures|-1], captures[|captures|-1];
      RowsNamed(FlatRows(env, captures), id)
        == RowsNamed(FlatRows(env, front), id) + if last.id == id then RowsOf(env, last) else []
  {
    var front, last := captures[..|captures|-1], captures[|captures|-1];
    var rows := RowsOf(env, last);
    RowsNamedAppend(FlatRows(env, front), rows, id);
    RowsCarryCapture(env, last);
    forall i | 0 <= i < |rows| ensures rows[i].entity.provenance.captureId == last.id {
      assert RowIds(rows)[i] == last.id;
    }
    RowsNamedAlike(rows, last.id, id);
  }

  /** The rows a flattened artifact has of a capture are those its payload decodes to, and no others bear its ID. */
  lemma {:induction false} FlatRowsNamed(env: Env, captures: seq<Capture>, id: string)
    requires DistinctIds(captures)
    ensures forall c :: c in captures && c.id == id ==> RowsNamed(FlatRows(env, captures), id) == RowsOf(env, c)
    ensures (forall c :: c in captures ==> c.id != id) ==> RowsNamed(FlatRows(env, captures), id) == []
  {
    if |captures| > 0 {
      var front, last := captures[..|captures|-1], captures[|captures|-1];
      FlatRowsStep(env, captures, id);
      FlatRowsNamed(env, front, id);
      assert captures == front + [last];
      if last.id == id {
        forall c | c in front ensures c.id != id {
          var i :| 0 <= i < |front| && front[i] == c;
          assert captures[i].id != captures[|captures|-1].id;
        }
      }
    }
  }

  /** A nested revision holds every readable capture's bytes; each capture is in the artifact or excluded. */
  lemma {:induction false} NestedCoverage(env: Env, captures: seq<Capture>, c: Capture)
    requires c in captures
    ensures var v := ReadVerified(env, c);
      if v.Body? then NestedRowOf(env, c, v.bytes) in NestedRows(env, captures)
      else Exclusion(c.id, v.reason) in Exclusions(env, captures)
  {
    var front, last := captures[..|captures|-1], captures[|captures|-1];
    assert captures == front + [last];
    if c != last {
      NestedCoverage(env, front, c);
    }
  }
}
