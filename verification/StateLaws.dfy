/** What every transaction, and every run of transactions, keeps. */
module StateLaws {
  import opened Prelude
  import opened Tables
  import TextTime

  datatype Transaction =
    | TickRecorded(id: string, tick: Tick)
    | CaptureSaved(tick: Tick, id: string, capture: Capture)
    | CompactionSaved(k: Revision, c: Compaction, ids: seq<string>, destinations: map<string, bool>, now: int)
    | CompactionAdopted(k: Revision, c: Compaction, adopted: seq<Input>, excluded: set<string>,
      destinations: map<string, bool>, now: int)
    | UploadAttempted(u: UploadKey, remote: string, next: int)
    | UploadFailed(u: UploadKey, status: Status, detail: string, next: int)
    | UploadVerified(u: UploadKey, remote: string, now: int)
    | Backfilled(destination: string, now: int)
    | Retired(destination: string, reason: string, now: int)
    | CaptureReleased(id: string)
    | ParquetReleased(k: Revision)
    | DaySummarised(day: Day, start: int, end: int, now: int)

  /** The tables after a transaction, committed or rolled back. */
  function Apply(db: DB, t: Transaction): DB {
    match t
    case TickRecorded(id, tick) => RecordTick(db, id, tick)
    case CaptureSaved(tick, id, c) => GetOr(SaveCapture(db, tick, id, c), db)
    case CompactionSaved(k, c, ids, ds, now) => GetOr(SaveCompaction(db, k, c, ids, ds, now), db)
    case CompactionAdopted(k, c, ins, ex, ds, now) => GetOr(AdoptCompaction(db, k, c, ins, ex, ds, now), db)
    case UploadAttempted(u, remote, next) => MarkUploadAttempt(db, u, remote, next)
    case UploadFailed(u, status, detail, next) => MarkUploadFailed(db, u, status, detail, next)
    case UploadVerified(u, remote, now) => GetOr(MarkUploadVerified(db, u, remote, now), db)
    case Backfilled(d, now) => EnsureDestinationBackfill(db, d, now)
    case Retired(d, reason, now) => RetireDestination(db, d, reason, now)
    case CaptureReleased(id) => MarkCaptureRetained(db, id)
    case ParquetReleased(k) => MarkParquetRetained(db, k)
    case DaySummarised(day, start, end, now) =>
      var r := SummarizeDay(db, day, start, end, now);
      if r.Done? then r.db else db
  }

  function Run(db: DB, ts: seq<Transaction>): DB {
    if |ts| == 0 then db else Apply(Run(db, ts[..|ts|-1]), ts[|ts|-1])
  }

  const EMPTY: DB := DB(map[], map[], map[], {}, map[], map[])

  // ---- foreign keys ----

  predicate ForeignKeys(db: DB) {
    && (forall id :: id in db.captures ==> db.captures[id].tickId in db.ticks)
    && (forall i :: i in db.inputs ==> i.0 in db.compactions && i.1 in db.captures)
    && (forall u :: u in db.uploads ==> u.0 in db.compactions)
  }

  lemma {:induction false} LinkedHaveRows(db: DB, inputs: seq<Input>)
    ensures forall id :: id in Linked(db, inputs) ==> id in db.captures
  {
    if |inputs| > 0 {
      LinkedHaveRows(db, inputs[..|inputs|-1]);
    }
  }

  lemma StatusesKeepKeys(db: DB, t: Transaction)
    requires ForeignKeys(db)
    requires t.UploadAttempted? || t.UploadFailed? || t.UploadVerified? || t.Backfilled? || t.Retired?
      || t.CaptureReleased? || t.ParquetReleased?
    ensures ForeignKeys(Apply(db, t))
  {
  }

  /** No transaction leaves a dangling reference. */
  lemma ForeignKeysKept(db: DB, t: Transaction)
    requires ForeignKeys(db)
    ensures ForeignKeys(Apply(db, t))
  {
    match t {
      case TickRecorded(_, _) =>
      case CaptureSaved(_, _, _) =>
      case CompactionSaved(_, _, _, _, _) =>
      case CompactionAdopted(k, c, ins, ex, ds, now) =>
        LinkedHaveRows(db, ins);
      case DaySummarised(day, start, end, now) =>
        if SummarizeDay(db, day, start, end, now).Done? { SummaryKeepsKeys(db, day, start, end, now); }
      case _ => StatusesKeepKeys(db, t);
    }
  }

  lemma SummaryKeepsKeys(db: DB, day: Day, start: int, end: int, now: int)
    requires ForeignKeys(db)
    requires SummarizeDay(db, day, start, end, now).Done?
    ensures ForeignKeys(SummarizeDay(db, day, start, end, now).db)
  {
    var after := SummarizeDay(db, day, start, end, now).db;
    forall id | id in after.captures
      ensures after.captures[id].tickId in after.ticks
    {
      assert id in db.captures && !BlocksSummary(db, day, start, end, id);
    }
  }

  // ---- the publication gate ----

  predicate HasRequired(db: DB, k: Revision) {
    exists u :: u in db.uploads && u.0 == k && db.uploads[u].required
  }

  /** A revision with a required upload is published exactly when all of them are verified or retired. */
  predicate GateExact(db: DB) {
    forall k :: k in db.compactions && HasRequired(db, k) ==> (Published(db, k) <==> !PendingRequired(db.uploads, k))
  }

  /** What the callers of each transaction guarantee: a revision is recorded as already published only
      without required destinations, and no worker fails or re-attempts a settled required row. */
  predicate Admissible(db: DB, t: Transaction) {
    match t
    case CompactionSaved(k, c, ids, ds, now) => c.publishedAt.Some? ==> forall d :: d in ds ==> !ds[d]
    case CompactionAdopted(k, c, ins, ex, ds, now) => c.publishedAt.Some? ==> forall d :: d in ds ==> !ds[d]
    case UploadAttempted(u, remote, next) => u in db.uploads && db.uploads[u].required ==>
      !Settled(db.uploads[u].status)
    case UploadFailed(u, status, detail, next) =>
      u in db.uploads && db.uploads[u].required ==> !Settled(db.uploads[u].status) && !Settled(status)
    case _ => true
  }

  lemma GateAfterQueue(db: DB, after: DB, k: Revision, c: Compaction, ds: map<string, bool>, now: int)
    requires GateExact(db) && ForeignKeys(db) && k !in db.compactions
    requires after.compactions == db.compactions[k := c] && after.uploads == db.uploads + Queue(k, ds, now)
    requires c.publishedAt.Some? ==> forall d :: d in ds ==> !ds[d]
    ensures GateExact(after)
  {
    forall j | j in after.compactions && HasRequired(after, j)
      ensures Published(after, j) <==> !PendingRequired(after.uploads, j)
    {
      var w :| w in after.uploads && w.0 == j && after.uploads[w].required;
      if j == k {
        assert w in Queue(k, ds, now);
      } else {
        SameRows(db, after, j);
      }
    }
  }

  /** Rows of one revision unchanged: the gate reads the same. */
  lemma SameRows(db: DB, after: DB, j: Revision)
    requires forall u: UploadKey :: u.0 == j ==> (u in db.uploads <==> u in after.uploads)
    requires forall u: UploadKey :: u.0 == j && u in db.uploads ==>
      after.uploads[u].required == db.uploads[u].required
        && Settled(after.uploads[u].status) == Settled(db.uploads[u].status)
    ensures HasRequired(db, j) <==> HasRequired(after, j)
    ensures PendingRequired(db.uploads, j) <==> PendingRequired(after.uploads, j)
  {
    if HasRequired(db, j) {
      var w :| w in db.uploads && w.0 == j && db.uploads[w].required;
      assert w in after.uploads;
    }
    if HasRequired(after, j) {
      var w :| w in after.uploads && w.0 == j && after.uploads[w].required;
      assert w in db.uploads;
    }
    if PendingRequired(db.uploads, j) {
      var w :| w in db.uploads && w.0 == j && db.uploads[w].required && !Settled(db.uploads[w].status);
      assert w in after.uploads;
    }
    if PendingRequired(after.uploads, j) {
      var w :| w in after.uploads && w.0 == j && after.uploads[w].required && !Settled(after.uploads[w].status);
      assert w in db.uploads;
    }
  }

  /** A row that was, and stays, unsettled or optional does not move the gate. */
  lemma GateAfterRow(db: DB, after: DB, u: UploadKey)
    requires GateExact(db)
    requires u in db.uploads && after.compactions == db.compactions
    requires u in after.uploads && after.uploads == db.uploads[u := after.uploads[u]]
      && after.uploads[u].required == db.uploads[u].required
    requires db.uploads[u].required ==> !Settled(db.uploads[u].status) && !Settled(after.uploads[u].status)
    ensures GateExact(after)
  {
    forall j | j in after.compactions && HasRequired(after, j)
      ensures Published(after, j) <==> !PendingRequired(after.uploads, j)
    {
      var w :| w in after.uploads && w.0 == j && after.uploads[w].required;
      assert w in db.uploads && db.uploads[w].required;
      if PendingRequired(db.uploads, j) {
        var p :| p in db.uploads && p.0 == j && db.uploads[p].required && !Settled(db.uploads[p].status);
        assert p in after.uploads && !Settled(after.uploads[p].status);
      }
      if PendingRequired(after.uploads, j) {
        var p :| p in after.uploads && p.0 == j && after.uploads[p].required && !Settled(after.uploads[p].status);
        assert p in db.uploads && !Settled(db.uploads[p].status);
      }
    }
  }

  lemma GateAfterVerified(db: DB, u: UploadKey, remote: string, now: int)
    requires GateExact(db) && ForeignKeys(db) && u in db.uploads
    ensures GateExact(MarkUploadVerified(db, u, remote, now).value)
  {
    var after := MarkUploadVerified(db, u, remote, now).value;
    forall j | j in after.compactions && HasRequired(after, j)
      ensures Published(after, j) <==> !PendingRequired(after.uploads, j)
    {
      if j == u.0 {
        GateAtVerified(db, u, remote, now);
      } else {
        SameRows(db, after, j);
      }
    }
  }

  lemma GateAtVerified(db: DB, u: UploadKey, remote: string, now: int)
    requires GateExact(db) && ForeignKeys(db) && u in db.uploads
    ensures var after := MarkUploadVerified(db, u, remote, now).value;
      HasRequired(after, u.0) ==> (Published(after, u.0) <==> !PendingRequired(after.uploads, u.0))
  {
    var after := MarkUploadVerified(db, u, remote, now).value;
    if HasRequired(after, u.0) && PendingRequired(after.uploads, u.0) {
      var p :| p in after.uploads && p.0 == u.0 && after.uploads[p].required && !Settled(after.uploads[p].status);
      assert p in db.uploads && !Settled(db.uploads[p].status) && db.uploads[p].required;
      assert HasRequired(db, u.0) && PendingRequired(db.uploads, u.0);
    }
  }

  lemma GateAfterRetire(db: DB, d: string, reason: string, now: int)
    requires GateExact(db)
    ensures GateExact(RetireDestination(db, d, reason, now))
  {
    var after := RetireDestination(db, d, reason, now);
    forall j | j in after.compactions && HasRequired(after, j)
      ensures Published(after, j) <==> !PendingRequired(after.uploads, j)
    {
      var w :| w in after.uploads && w.0 == j && after.uploads[w].required;
      assert w in db.uploads && db.uploads[w].required;
      assert HasRequired(db, j);
      if PendingRequired(after.uploads, j) {
        var p :| p in after.uploads && p.0 == j && after.uploads[p].required && !Settled(after.uploads[p].status);
        assert p in db.uploads && !Settled(db.uploads[p].status);
      } else if PendingRequired(db.uploads, j) {
        var p :| p in db.uploads && p.0 == j && db.uploads[p].required && !Settled(db.uploads[p].status);
        assert p in after.uploads && Settled(after.uploads[p].status);
        assert p == (j, d);
      }
    }
  }

  /** The gate survives every admissible transaction, backfills and retirements included. */
  lemma GateKept(db: DB, t: Transaction)
    requires ForeignKeys(db) && GateExact(db) && Admissible(db, t)
    ensures GateExact(Apply(db, t))
  {
    match t {
      case CompactionSaved(k, c, ids, ds, now) =>
        if SaveCompaction(db, k, c, ids, ds, now).Some? { GateAfterQueue(db, Apply(db, t), k, c, ds, now); }
      case CompactionAdopted(k, c, ins, ex, ds, now) =>
        if AdoptCompaction(db, k, c, ins, ex, ds, now).Some? { GateAfterQueue(db, Apply(db, t), k, c, ds, now); }
      case UploadAttempted(u, remote, next) =>
        if u in db.uploads { GateAfterRow(db, Apply(db, t), u); }
      case UploadFailed(u, status, detail, next) =>
        if u in db.uploads { GateAfterRow(db, Apply(db, t), u); }
      case UploadVerified(u, remote, now) =>
        if u in db.uploads { GateAfterVerified(db, u, remote, now); }
      case Backfilled(d, now) =>
        GateAfterBackfill(db, d, now);
      case Retired(d, reason, now) =>
        GateAfterRetire(db, d, reason, now);
      case ParquetReleased(k) =>
        GateAfterParquet(db, k);
      case _ =>
        GateAside(db, t);
    }
  }

  /** Transactions on ticks, captures and summaries do not touch the gate. */
  lemma GateAside(db: DB, t: Transaction)
    requires GateExact(db) && (t.TickRecorded? || t.CaptureSaved? || t.CaptureReleased? || t.DaySummarised?)
    ensures GateExact(Apply(db, t))
  {
    GateUntouched(db, Apply(db, t));
  }

  lemma GateUntouched(db: DB, after: DB)
    requires GateExact(db) && after.uploads == db.uploads && after.compactions == db.compactions
    ensures GateExact(after)
  {
    forall j | j in after.compactions && HasRequired(after, j)
      ensures Published(after, j) <==> !PendingRequired(after.uploads, j)
    {
      assert HasRequired(db, j);
    }
  }

  lemma GateAfterBackfill(db: DB, d: string, now: int)
    requires GateExact(db)
    ensures GateExact(EnsureDestinationBackfill(db, d, now))
  {
    var after := EnsureDestinationBackfill(db, d, now);
    forall j | j in after.compactions && HasRequired(after, j)
      ensures Published(after, j) <==> !PendingRequired(after.uploads, j)
    {
      var w :| w in after.uploads && w.0 == j && after.uploads[w].required;
      assert w in db.uploads && db.uploads[w].required;
      if PendingRequired(db.uploads, j) {
        var p :| p in db.uploads && p.0 == j && db.uploads[p].required && !Settled(db.uploads[p].status);
        assert p in after.uploads && after.uploads[p] == db.uploads[p];
      }
      if PendingRequired(after.uploads, j) {
        var p :| p in after.uploads && p.0 == j && after.uploads[p].required && !Settled(after.uploads[p].status);
        assert p in db.uploads && after.uploads[p] == db.uploads[p];
      }
    }
  }

  lemma GateAfterParquet(db: DB, k: Revision)
    requires GateExact(db)
    ensures GateExact(MarkParquetRetained(db, k))
  {
    var after := MarkParquetRetained(db, k);
    forall j | j in after.compactions && HasRequired(after, j)
      ensures Published(after, j) <==> !PendingRequired(after.uploads, j)
    {
      var w :| w in after.uploads && w.0 == j && after.uploads[w].required;
      assert w in db.uploads && db.uploads[w].required;
      if PendingRequired(db.uploads, j) {
        var p :| p in db.uploads && p.0 == j && db.uploads[p].required && !Settled(db.uploads[p].status);
        assert p in after.uploads && after.uploads[p] == db.uploads[p];
      }
      if PendingRequired(after.uploads, j) {
        var p :| p in after.uploads && p.0 == j && after.uploads[p].required && !Settled(after.uploads[p].status);
        assert p in db.uploads && after.uploads[p] == db.uploads[p];
      }
    }
  }

  /** published_at never returns to NULL, whatever the transaction. */
  lemma PublishedStays(db: DB, t: Transaction, k: Revision)
    requires Published(db, k)
    ensures Published(Apply(db, t), k)
  {
  }

  /** The gate rests on one worker per destination: failing a row that was already verified would leave a
      published revision with a pending required upload. */
  lemma SettledRowMustNotFail(db: DB, u: UploadKey, status: Status, detail: string, next: int)
    requires GateExact(db) && u in db.uploads && u.0 in db.compactions && db.uploads[u].required
    requires !Settled(status)
    ensures GateExact(MarkUploadFailed(db, u, status, detail, next)) <==> !Published(db, u.0)
  {
    var after := MarkUploadFailed(db, u, status, detail, next);
    assert HasRequired(db, u.0) && HasRequired(after, u.0);
    assert PendingRequired(after.uploads, u.0);
    if !Published(db, u.0) {
      forall j | j in after.compactions && HasRequired(after, j)
        ensures Published(after, j) <==> !PendingRequired(after.uploads, j)
      {
        var w :| w in after.uploads && w.0 == j && after.uploads[w].required;
        assert w in db.uploads && db.uploads[w].required;
        if j != u.0 {
          SameRows(db, after, j);
        }
      }
    }
  }

  /** Once published, a revision's publication instant is moved by exactly one transaction: verifying one of its
      uploads, which can only be an optional one, at another instant. */
  lemma PublicationMovesExactly(db: DB, t: Transaction, k: Revision)
    requires ForeignKeys(db) && GateExact(db) && Published(db, k)
    ensures k in Apply(db, t).compactions
    ensures Apply(db, t).compactions[k].publishedAt != db.compactions[k].publishedAt
      <==> t.UploadVerified? && t.u in db.uploads && t.u.0 == k && db.compactions[k].publishedAt != Some(t.now)
  {
    match t {
      case UploadVerified(u, remote, now) =>
        if u in db.uploads && u.0 == k { LateVerificationMovesPublication(db, u, remote, now); }
      case _ =>
    }
  }

  /** Verifying an upload of a published revision sets its publication instant to now. */
  lemma LateVerificationMovesPublication(db: DB, u: UploadKey, remote: string, now: int)
    requires GateExact(db) && u in db.uploads && u.0 in db.compactions && Published(db, u.0)
    ensures MarkUploadVerified(db, u, remote, now).value.compactions
      == db.compactions[u.0 := Publish(db.compactions[u.0], now)]
    ensures MarkUploadVerified(db, u, remote, now).value.compactions[u.0].publishedAt == Some(now)
  {
    PendingShrinks(db.uploads, u, db.uploads[u].(status := Verified, lastError := "", remotePath := remote,
      completedAt := Some(now)));
    assert PendingRequired(db.uploads, u.0) ==> HasRequired(db, u.0);
  }

  lemma PendingShrinks(uploads: map<UploadKey, Upload>, u: UploadKey, row: Upload)
    requires u in uploads && row.status == Verified && row.required == uploads[u].required
    ensures PendingRequired(uploads[u := row], u.0) ==> PendingRequired(uploads, u.0)
  {
    var after := uploads[u := row];
    if PendingRequired(after, u.0) {
      var p :| p in after && p.0 == u.0 && after[p].required && !Settled(after[p].status);
      assert p in uploads && uploads[p].required && !Settled(uploads[p].status);
    }
  }

  /** A concrete revision, published at 100 without required uploads, that a late verification publishes anew at 900. */
  lemma LateVerificationExample()
    ensures var k := Revision(Day(Stream("a", "b"), "2026-08-11"), 1);
      var row := Compaction("published", "dir", "", "m", "", 0, 0, 0, [], 50, Some(100));
      var db := DB(map[], map[], map[k := row], {}, map[(k, "d") := QueuedUpload(false, 50)], map[]);
      && ForeignKeys(db) && GateExact(db)
      && Apply(db, UploadVerified((k, "d"), "r", 900)).compactions[k].publishedAt == Some(900)
  {
    var k := Revision(Day(Stream("a", "b"), "2026-08-11"), 1);
    var row := Compaction("published", "dir", "", "m", "", 0, 0, 0, [], 50, Some(100));
    var db := DB(map[], map[], map[k := row], {}, map[(k, "d") := QueuedUpload(false, 50)], map[]);
    assert (k, "d") in db.uploads;
    LateVerificationMovesPublication(db, (k, "d"), "r", 900);
  }

  // ---- whole runs ----

  predicate AdmissibleRun(db: DB, ts: seq<Transaction>) {
    |ts| > 0 ==> AdmissibleRun(db, ts[..|ts|-1]) && Admissible(Run(db, ts[..|ts|-1]), ts[|ts|-1])
  }

  /** In every reachable state references resolve and the publication gate is exact. */
  lemma {:induction false} RunKeepsGate(ts: seq<Transaction>)
    requires AdmissibleRun(EMPTY, ts)
    ensures ForeignKeys(Run(EMPTY, ts)) && GateExact(Run(EMPTY, ts))
  {
    if |ts| > 0 {
      RunKeepsGate(ts[..|ts|-1]);
      ForeignKeysKept(Run(EMPTY, ts[..|ts|-1]), ts[|ts|-1]);
      GateKept(Run(EMPTY, ts[..|ts|-1]), ts[|ts|-1]);
    }
  }

  // ---- conservation of ticks and captures ----

  function LiveTicks(db: DB, s: Stream): set<string> {
    OfStream(db.ticks, s)
  }

  function CapturesOf(captures: map<string, Capture>, s: Stream): set<string> {
    set id | id in captures && captures[id].day.stream == s
  }

  function StreamCaptures(db: DB, s: Stream): set<string> {
    CapturesOf(db.captures, s)
  }

  function SummarisedDays(db: DB, s: Stream): set<Day> {
    set d | d in db.summaries && d.stream == s
  }

  function ScheduledIn(summaries: map<Day, Summary>): Day -> nat {
    d => if d in summaries then summaries[d].scheduledTicks else 0
  }

  function CapturedIn(summaries: map<Day, Summary>): Day -> nat {
    d => if d in summaries then summaries[d].captured else 0
  }

  /** Live ticks of a stream plus the ticks its summaries stand for. */
  ghost function TickTally(db: DB, s: Stream): nat {
    |LiveTicks(db, s)| + Sum(SummarisedDays(db, s), ScheduledIn(db.summaries))
  }

  ghost function CaptureTally(db: DB, s: Stream): nat {
    |StreamCaptures(db, s)| + Sum(SummarisedDays(db, s), CapturedIn(db.summaries))
  }

  /** Tick rows of stream `s` that a transaction inserts (an upsert of an existing row inserts none). */
  function TicksInserted(db: DB, t: Transaction, s: Stream): nat {
    match t
    case TickRecorded(id, tick) => if id !in db.ticks && tick.stream == s then 1 else 0
    case CaptureSaved(tick, id, c) =>
      if !CaptureConflict(db, id, c) && c.tickId !in db.ticks && tick.stream == s then 1 else 0
    case _ => 0
  }

  function CapturesInserted(db: DB, t: Transaction, s: Stream): nat {
    match t
    case CaptureSaved(tick, id, c) => if !CaptureConflict(db, id, c) && c.day.stream == s then 1 else 0
    case _ => 0
  }

  function OfStream(ticks: map<string, Tick>, s: Stream): set<string> {
    set id | id in ticks && ticks[id].stream == s
  }

  lemma UpsertTally(ticks: map<string, Tick>, id: string, t: Tick, s: Stream)
    ensures |OfStream(UpsertTick(ticks, id, t), s)| == |OfStream(ticks, s)|
      + (if id !in ticks && t.stream == s then 1 else 0)
  {
    var after := UpsertTick(ticks, id, t);
    if id in ticks {
      assert forall i :: i in after <==> i in ticks;
      assert forall i :: i in ticks ==> after[i].stream == ticks[i].stream;
      assert OfStream(after, s) == OfStream(ticks, s);
    } else {
      TickAdded(ticks, id, t, s);
    }
  }

  lemma TickAdded(ticks: map<string, Tick>, id: string, t: Tick, s: Stream)
    requires id !in ticks
    ensures |OfStream(ticks[id := t], s)| == |OfStream(ticks, s)| + (if t.stream == s then 1 else 0)
  {
    if t.stream == s {
      assert OfStream(ticks[id := t], s) == OfStream(ticks, s) + {id};
    } else {
      assert OfStream(ticks[id := t], s) == OfStream(ticks, s);
    }
  }

  lemma CaptureAdded(captures: map<string, Capture>, id: string, c: Capture, s: Stream)
    requires id !in captures
    ensures |CapturesOf(captures[id := c], s)| == |CapturesOf(captures, s)| + (if c.day.stream == s then 1 else 0)
  {
    if c.day.stream == s {
      assert CapturesOf(captures[id := c], s) == CapturesOf(captures, s) + {id};
    } else {
      assert CapturesOf(captures[id := c], s) == CapturesOf(captures, s);
    }
  }

  lemma TicksRemoved(ticks: map<string, Tick>, window: set<string>, from: Stream, s: Stream)
    requires window <= OfStream(ticks, from)
    ensures |OfStream(ticks, s)| == |OfStream(ticks - window, s)| + (if from == s then |window| else 0)
  {
    if from == s {
      assert OfStream(ticks, s) == OfStream(ticks - window, s) + window;
    } else {
      assert OfStream(ticks, s) == OfStream(ticks - window, s);
    }
  }

  lemma CapturesRemoved(captures: map<string, Capture>, ids: set<string>, from: Stream, s: Stream)
    requires ids <= CapturesOf(captures, from)
    ensures |CapturesOf(captures, s)| == |CapturesOf(captures - ids, s)| + (if from == s then |ids| else 0)
  {
    if from == s {
      assert CapturesOf(captures, s) == CapturesOf(captures - ids, s) + ids;
    } else {
      assert CapturesOf(captures, s) == CapturesOf(captures - ids, s);
    }
  }

  lemma SumExtends(db: DB, after: DB, day: Day, s: Stream, f: Day -> nat, g: Day -> nat)
    requires day !in db.summaries && after.summaries.Keys == db.summaries.Keys + {day}
    requires forall d :: d in db.summaries ==> f(d) == g(d)
    ensures Sum(SummarisedDays(after, s), g) == Sum(SummarisedDays(db, s), f) + (if day.stream == s then g(day) else 0)
  {
    var old_, new_ := SummarisedDays(db, s), SummarisedDays(after, s);
    SumSame(old_, f, g);
    if day.stream == s {
      assert new_ - {day} == old_;
      SumRemove(new_, g, day);
    } else {
      assert new_ == old_;
    }
  }

  /** The tables a summary leaves. */
  lemma SummaryShape(db: DB, day: Day, start: int, end: int, now: int)
    requires SummarizeDay(db, day, start, end, now).Done?
    ensures var after := SummarizeDay(db, day, start, end, now).db;
      && after.ticks == db.ticks - WindowTicks(db, day.stream, start, end)
      && after.captures == db.captures - DayCaptures(db, day)
      && day !in db.summaries && after.summaries == db.summaries[day := Summarised(db, day, start, end, now)]
  {
  }

  lemma SummaryConserves(db: DB, after: DB, day: Day, start: int, end: int, now: int, s: Stream)
    requires day !in db.summaries && after.summaries == db.summaries[day := Summarised(db, day, start, end, now)]
    requires after.ticks == db.ticks - WindowTicks(db, day.stream, start, end)
    requires after.captures == db.captures - DayCaptures(db, day)
    ensures TickTally(after, s) == TickTally(db, s) && CaptureTally(after, s) == CaptureTally(db, s)
  {
    SumExtends(db, after, day, s, ScheduledIn(db.summaries), ScheduledIn(after.summaries));
    SumExtends(db, after, day, s, CapturedIn(db.summaries), CapturedIn(after.summaries));
    TicksRemoved(db.ticks, WindowTicks(db, day.stream, start, end), day.stream, s);
    CapturesRemoved(db.captures, DayCaptures(db, day), day.stream, s);
  }

  /** Tallies follow the live rows when no summary is written. */
  lemma TallyFollowsRows(db: DB, after: DB, s: Stream, ticks: nat, captures: nat)
    requires |LiveTicks(after, s)| == |LiveTicks(db, s)| + ticks
    requires |StreamCaptures(after, s)| == |StreamCaptures(db, s)| + captures
    requires after.summaries == db.summaries
    ensures TickTally(after, s) == TickTally(db, s) + ticks && CaptureTally(after, s) == CaptureTally(db, s) + captures
  {
    assert SummarisedDays(after, s) == SummarisedDays(db, s);
  }

  lemma SummaryTally(db: DB, day: Day, start: int, end: int, now: int, s: Stream)
    ensures var r := SummarizeDay(db, day, start, end, now);
      r.Done? ==> TickTally(r.db, s) == TickTally(db, s) && CaptureTally(r.db, s) == CaptureTally(db, s)
  {
    var r := SummarizeDay(db, day, start, end, now);
    if r.Done? {
      SummaryShape(db, day, start, end, now);
      SummaryConserves(db, r.db, day, start, end, now, s);
    }
  }

  lemma ReleaseTally(db: DB, id: string, s: Stream)
    ensures TickTally(MarkCaptureRetained(db, id), s) == TickTally(db, s)
    ensures CaptureTally(MarkCaptureRetained(db, id), s) == CaptureTally(db, s)
  {
    var after := MarkCaptureRetained(db, id);
    assert after.captures.Keys == db.captures.Keys && forall i :: i in db.captures ==>
      after.captures[i].day == db.captures[i].day;
    assert StreamCaptures(after, s) == StreamCaptures(db, s);
    TallyFollowsRows(db, after, s, 0, 0);
  }

  lemma SaveTally(db: DB, tick: Tick, id: string, c: Capture, s: Stream)
    ensures var after := GetOr(SaveCapture(db, tick, id, c), db);
      && TickTally(after, s) == TickTally(db, s) + TicksInserted(db, CaptureSaved(tick, id, c), s)
      && CaptureTally(after, s) == CaptureTally(db, s) + CapturesInserted(db, CaptureSaved(tick, id, c), s)
  {
    if !CaptureConflict(db, id, c) {
      var after := SaveCapture(db, tick, id, c).value;
      UpsertTally(db.ticks, c.tickId, tick, s);
      CaptureAdded(db.captures, id, c, s);
      TallyFollowsRows(db, after, s, TicksInserted(db, CaptureSaved(tick, id, c), s),
        CapturesInserted(db, CaptureSaved(tick, id, c), s));
    }
  }

  lemma RowsUntouched(db: DB, t: Transaction)
    requires !t.TickRecorded? && !t.CaptureSaved? && !t.CaptureReleased? && !t.DaySummarised?
    ensures Apply(db, t).ticks == db.ticks && Apply(db, t).captures == db.captures
      && Apply(db, t).summaries == db.summaries
  {
  }

  /** A transaction changes the tallies of a stream by exactly the rows it inserts. */
  lemma TallyStep(db: DB, t: Transaction, s: Stream)
    ensures TickTally(Apply(db, t), s) == TickTally(db, s) + TicksInserted(db, t, s)
    ensures CaptureTally(Apply(db, t), s) == CaptureTally(db, s) + CapturesInserted(db, t, s)
  {
    var after := Apply(db, t);
    match t {
      case TickRecorded(id, tick) =>
        UpsertTally(db.ticks, id, tick, s);
        TallyFollowsRows(db, after, s, TicksInserted(db, t, s), 0);
      case CaptureSaved(tick, id, c) =>
        SaveTally(db, tick, id, c, s);
      case CaptureReleased(id) =>
        ReleaseTally(db, id, s);
      case DaySummarised(day, start, end, now) =>
        SummaryTally(db, day, start, end, now, s);
      case _ =>
        RowsUntouched(db, t);
        TallyFollowsRows(db, after, s, 0, 0);
    }
  }

  function TicksEverInserted(ts: seq<Transaction>, s: Stream): nat {
    if |ts| == 0 then 0
    else TicksEverInserted(ts[..|ts|-1], s) + TicksInserted(Run(EMPTY, ts[..|ts|-1]), ts[|ts|-1], s)
  }

  function CapturesEverInserted(ts: seq<Transaction>, s: Stream): nat {
    if |ts| == 0 then 0
    else CapturesEverInserted(ts[..|ts|-1], s) + CapturesInserted(Run(EMPTY, ts[..|ts|-1]), ts[|ts|-1], s)
  }

  /** Over any run, the tick rows ever inserted for a stream are its live ticks plus the ticks its summaries
      count, and likewise for captures. */
  lemma {:induction false} RunConserves(ts: seq<Transaction>, s: Stream)
    ensures TickTally(Run(EMPTY, ts), s) == TicksEverInserted(ts, s)
    ensures CaptureTally(Run(EMPTY, ts), s) == CapturesEverInserted(ts, s)
  {
    if |ts| == 0 {
      assert LiveTicks(EMPTY, s) == {} && StreamCaptures(EMPTY, s) == {} && SummarisedDays(EMPTY, s) == {};
    } else {
      RunConserves(ts[..|ts|-1], s);
      TallyStep(Run(EMPTY, ts[..|ts|-1]), ts[|ts|-1], s);
    }
  }

  // ---- summaries ----

  ghost predicate SummaryAdds(s: Summary) {
    s.valid + s.invalid == s.captured == CountTotal(s.parseCounts)
  }

  lemma SummaryBalances(db: DB, day: Day, start: int, end: int, now: int)
    ensures SummaryAdds(Summarised(db, day, start, end, now))
  {
    var ids, counts := DayCaptures(db, day), ParseCounts(db, day);
    LabelsPartition(ids, CaptureLabel(db), counts.Keys);
    SumSame(counts.Keys, Counter(counts), v => Labelled(ids, CaptureLabel(db), v));
  }

  lemma SummariesKept(db: DB, t: Transaction)
    requires !t.DaySummarised?
    ensures Apply(db, t).summaries == db.summaries
  {
  }

  lemma SummariesStep(db: DB, t: Transaction)
    requires forall d :: d in db.summaries ==> SummaryAdds(db.summaries[d])
    ensures forall d :: d in Apply(db, t).summaries ==> SummaryAdds(Apply(db, t).summaries[d])
  {
    if t.DaySummarised? {
      SummaryBalances(db, t.day, t.start, t.end, t.now);
    } else {
      SummariesKept(db, t);
    }
  }

  /** Every summary ever written balances: valid plus invalid is captured is the sum of the parse counts. */
  lemma {:induction false} RunSummariesBalance(ts: seq<Transaction>)
    ensures forall d :: d in Run(EMPTY, ts).summaries ==> SummaryAdds(Run(EMPTY, ts).summaries[d])
  {
    if |ts| > 0 {
      RunSummariesBalance(ts[..|ts|-1]);
      SummariesStep(Run(EMPTY, ts[..|ts|-1]), ts[|ts|-1]);
    }
  }

  /** The bounds of each day: a capture's day holds its scheduled instant, a tick shares it, and days of one
      stream do not overlap. */
  predicate Within(bounds: Day -> (int, int), d: Day, t: int) {
    bounds(d).0 <= t < bounds(d).1
  }

  ghost predicate Dated(db: DB, bounds: Day -> (int, int)) {
    && (forall id :: id in db.captures ==>
        var c := db.captures[id];
        && c.tickId in db.ticks && db.ticks[c.tickId].stream == c.day.stream
           && db.ticks[c.tickId].scheduledAt == c.scheduledAt
        && Within(bounds, c.day, c.scheduledAt))
    && (forall d: Day, e: Day, t: int :: d.stream == e.stream && Within(bounds, d, t) && Within(bounds, e, t) ==>
       d == e)
  }

  /** A capture row scheduled within the first second after the day ends. */
  predicate FirstSecondAfter(db: DB, day: Day, end: int, id: string) {
    id in db.captures && db.captures[id].day.stream == day.stream
      && end < db.captures[id].scheduledAt < end + TextTime.SECOND
  }

  /** SummarizeDay on a retained, unsummarised day is refused exactly when a capture row of the same stream
      was scheduled in the first second after midnight: its tick falls in the text window of the day before. */
  lemma SummaryRefusedExactly(db: DB, day: Day, bounds: Day -> (int, int), now: int)
    requires Dated(db, bounds) && bounds(day).0 + TextTime.SECOND <= bounds(day).1
    requires LiveCaptures(db, day) == {} && day !in db.summaries
    ensures SummarizeDay(db, day, bounds(day).0, bounds(day).1, now).Failed?
      <==> exists id :: FirstSecondAfter(db, day, bounds(day).1, id)
  {
    var start, end := bounds(day).0, bounds(day).1;
    forall id | id in db.captures
      ensures BlocksSummary(db, day, start, end, id) <==> FirstSecondAfter(db, day, end, id)
    {
      var c := db.captures[id];
      assert c.tickId in db.ticks && Within(bounds, c.day, c.scheduledAt);
      if start <= c.scheduledAt < end && c.day.stream == day.stream {
        assert Within(bounds, day, c.scheduledAt);
      }
    }
  }

  /** One pass of Cleanup over its summary candidates; it stops at the first error. */
  function SummaryPass(db: DB, days: seq<Day>, bounds: Day -> (int, int), now: int): (DB, bool)
    decreases |days|
  {
    if |days| == 0 then (db, true)
    else
      var r := SummarizeDay(db, days[0], bounds(days[0]).0, bounds(days[0]).1, now);
      if r.Failed? then (db, false)
      else SummaryPass(if r.Done? then r.db else db, days[1..], bounds, now)
  }

  /** From `db` to `e` days of the list were summarised and nothing else was touched: what is gone belonged to one. */
  ghost predicate OnlySummarised(db: DB, e: DB, days: seq<Day>) {
    && e.compactions == db.compactions && e.uploads == db.uploads
    && (forall id :: id in e.captures ==> id in db.captures && e.captures[id] == db.captures[id])
    && (forall id :: id in db.captures && id !in e.captures ==>
        db.captures[id].day in e.summaries && db.captures[id].day !in db.summaries)
    && (forall d :: d in db.summaries ==> d in e.summaries && e.summaries[d] == db.summaries[d])
    && (forall d :: d in e.summaries && d !in db.summaries ==> d in days)
  }

  predicate HasLive(db: DB, day: Day) {
    exists id :: id in db.captures && db.captures[id].day == day && db.captures[id].rawPath.Live?
  }

  lemma OneSummarised(db: DB, day: Day, start: int, end: int, now: int)
    requires SummarizeDay(db, day, start, end, now).Done?
    ensures OnlySummarised(db, SummarizeDay(db, day, start, end, now).db, [day])
    ensures day in SummarizeDay(db, day, start, end, now).db.summaries
    ensures forall d :: HasLive(SummarizeDay(db, day, start, end, now).db, d) ==> HasLive(db, d)
  {
  }

  lemma SummarisedThen(a: DB, b: DB, c: DB, day: Day, days: seq<Day>)
    requires OnlySummarised(a, b, [day]) && OnlySummarised(b, c, days)
    ensures OnlySummarised(a, c, [day] + days)
  {
  }

  /** A pass summarises days of its list and touches nothing else; when it runs to its end, a day it left out still has
      a live capture. */
  lemma {:induction false} PassSummarises(db: DB, days: seq<Day>, bounds: Day -> (int, int), now: int)
    ensures OnlySummarised(db, SummaryPass(db, days, bounds, now).0, days)
    ensures SummaryPass(db, days, bounds, now).1 ==>
      forall d :: d in days ==> d in SummaryPass(db, days, bounds, now).0.summaries || HasLive(db, d)
    decreases |days|
  {
    if |days| > 0 {
      var day, start, end := days[0], bounds(days[0]).0, bounds(days[0]).1;
      var r := SummarizeDay(db, day, start, end, now);
      assert days == [day] + days[1..];
      if r.NotYet? {
        assert exists id :: id in LiveCaptures(db, day);
        PassSummarises(db, days[1..], bounds, now);
      } else if r.Done? {
        OneSummarised(db, day, start, end, now);
        PassSummarises(r.db, days[1..], bounds, now);
        SummarisedThen(db, r.db, SummaryPass(r.db, days[1..], bounds, now).0, day, days[1..]);
      }
    }
  }

  /** A pass that meets a blocked day stops there. */
  lemma {:induction false} PassStuck(db: DB, days: seq<Day>, n: nat, id: string, bounds: Day -> (int, int), now: int)
    requires n < |days| && Distinct(days) && Dated(db, bounds)
    requires BlocksSummary(db, days[n], bounds(days[n]).0, bounds(days[n]).1, id)
    requires LiveCaptures(db, days[n]) == {} && days[n] !in db.summaries
    requires forall j :: 0 <= j < n ==>
      days[j] != db.captures[id].day && db.captures[id].tickId !in WindowTicks(db, days[j].stream, bounds(days[j]).0,
        bounds(days[j]).1)
    ensures var (after, ok) := SummaryPass(db, days, bounds, now);
      && !ok && id in after.captures && after.captures[id] == db.captures[id] && Dated(after, bounds)
      && LiveCaptures(after, days[n]) == {} && days[n] !in after.summaries && after.compactions == db.compactions
    decreases n
  {
    if n > 0 {
      var r := SummarizeDay(db, days[0], bounds(days[0]).0, bounds(days[0]).1, now);
      var next := if r.Done? then r.db else db;
      assert days[1..][n-1] == days[n];
      assert LiveCaptures(next, days[n]) <= LiveCaptures(db, days[n]);
      if r.Done? { DatedAfter(db, days[0], bounds, now); }
      if !r.Failed? {
        PassStuck(next, days[1..], n - 1, id, bounds, now);
      }
    }
  }

  lemma DatedAfter(db: DB, day: Day, bounds: Day -> (int, int), now: int)
    requires Dated(db, bounds) && SummarizeDay(db, day, bounds(day).0, bounds(day).1, now).Done?
    ensures Dated(SummarizeDay(db, day, bounds(day).0, bounds(day).1, now).db, bounds)
  {
    var after := SummarizeDay(db, day, bounds(day).0, bounds(day).1, now).db;
    forall id | id in after.captures
      ensures after.captures[id].tickId in after.ticks
        && after.ticks[after.captures[id].tickId] == db.ticks[db.captures[id].tickId]
    {
      assert id in db.captures && db.captures[id].tickId in db.ticks
        && !BlocksSummary(db, day, bounds(day).0, bounds(day).1, id);
    }
  }

  /** The candidates of one pass: all of them, the days of a stream from the oldest on. */
  ghost predicate Lists(db: DB, days: seq<Day>, cutoff: int, bounds: Day -> (int, int)) {
    && Distinct(days) && (forall day :: day in days <==> SummaryCandidate(db, day, cutoff))
    && forall i, j :: 0 <= i < j < |days| && days[i].stream == days[j].stream ==> bounds(days[i]).0 < bounds(days[j]).0
  }

  /** The day is retained and due for its summary, and a capture of its stream was scheduled in the first second after
      it ends. */
  ghost predicate Wedged(db: DB, day: Day, cutoff: int, id: string, bounds: Day -> (int, int)) {
    && Dated(db, bounds) && bounds(day).0 + TextTime.SECOND <= bounds(day).1
    && SummaryCandidate(db, day, cutoff) && LiveCaptures(db, day) == {} && FirstSecondAfter(db, day, bounds(day).1, id)
  }

  datatype Pass = Pass(days: seq<Day>, cutoff: int, now: int)

  /** The days before a wedged one hold neither the blocking capture nor its tick. */
  lemma EarlierDaysApart(db: DB, day: Day, e: Day, cutoff: int, id: string, bounds: Day -> (int, int))
    requires Wedged(db, day, cutoff, id, bounds) && e != day
    requires e.stream == day.stream ==> bounds(e).0 < bounds(day).0
    ensures e != db.captures[id].day && db.captures[id].tickId !in WindowTicks(db, e.stream, bounds(e).0, bounds(e).1)
  {
    var c := db.captures[id];
    var s, t := bounds(day).0, c.scheduledAt;
    assert c.tickId in db.ticks && db.ticks[c.tickId].stream == c.day.stream && Within(bounds, c.day, t);
    if e.stream == day.stream {
      assert Within(bounds, day, s);
      assert Within(bounds, e, s) ==> e == day;
    }
  }

  lemma WedgedPassStuck(db: DB, day: Day, cutoff: int, id: string, bounds: Day -> (int, int), p: Pass)
    requires Wedged(db, day, cutoff, id, bounds) && cutoff <= p.cutoff && Lists(db, p.days, p.cutoff, bounds)
    ensures !SummaryPass(db, p.days, bounds, p.now).1
      && Wedged(SummaryPass(db, p.days, bounds, p.now).0, day, cutoff, id, bounds)
  {
    assert SummaryCandidate(db, day, p.cutoff);
    var n :| 0 <= n < |p.days| && p.days[n] == day;
    var c := db.captures[id];
    assert c.tickId in db.ticks && Within(bounds, c.day, c.scheduledAt);
    assert BlocksSummary(db, day, bounds(day).0, bounds(day).1, id);
    forall j | 0 <= j < n
      ensures p.days[j] != c.day && c.tickId !in WindowTicks(db, p.days[j].stream, bounds(p.days[j]).0,
        bounds(p.days[j]).1)
    {
      EarlierDaysApart(db, day, p.days[j], cutoff, id, bounds);
    }
    PassStuck(db, p.days, n, id, bounds, p.now);
  }

  // ---- what releases a wedge ----

  /** References resolve, the gate is exact, and captures are where their days say. */
  ghost predicate Orderly(db: DB, bounds: Day -> (int, int)) {
    ForeignKeys(db) && GateExact(db) && Dated(db, bounds)
  }

  /** A transaction as its callers run it: admissible, captures dated like their tick, days summarised by their
      bounds. */
  predicate RunProperly(db: DB, t: Transaction, bounds: Day -> (int, int)) {
    && Admissible(db, t)
    && (t.DaySummarised? ==> (t.start, t.end) == bounds(t.day))
    && (t.CaptureSaved? ==>
        var c := t.capture;
        && c.day.stream == t.tick.stream && c.scheduledAt == t.tick.scheduledAt && Within(bounds, c.day, c.scheduledAt)
        && (c.tickId in db.ticks ==>
            db.ticks[c.tickId].stream == t.tick.stream && db.ticks[c.tickId].scheduledAt == t.tick.scheduledAt))
  }

  predicate PublishedBy(c: Compaction, cutoff: int) {
    c.publishedAt.Some? && c.publishedAt.value <= cutoff
  }

  /** The transactions that free a wedged day: a revision of it that is not published by the cutoff, a late verification
      of one of its uploads, a new live capture of it, or the summary of the day of the capture in its way. */
  predicate Releases(db: DB, t: Transaction, day: Day, cutoff: int, id: string)
    requires id in db.captures
  {
    match t
    case CompactionSaved(k, c, ids, ds, now) =>
      k.day == day && SaveCompaction(db, k, c, ids, ds, now).Some? && !PublishedBy(c, cutoff)
    case CompactionAdopted(k, c, ins, ex, ds, now) =>
      k.day == day && AdoptCompaction(db, k, c, ins, ex, ds, now).Some? && !PublishedBy(c, cutoff)
    case UploadVerified(u, remote, now) => u in db.uploads && u.0.day == day && now > cutoff
    case CaptureSaved(tick, new_, c) => !CaptureConflict(db, new_, c) && c.day == day && c.rawPath.Live?
    case DaySummarised(d, start, end, now) => d == db.captures[id].day && SummarizeDay(db, d, start, end, now).Done?
    case _ => false
  }

  lemma DatedKept(db: DB, t: Transaction, bounds: Day -> (int, int))
    requires Dated(db, bounds) && RunProperly(db, t, bounds)
    ensures Dated(Apply(db, t), bounds)
  {
    match t {
      case DaySummarised(d, start, end, now) =>
        if SummarizeDay(db, d, start, end, now).Done? { DatedAfter(db, d, bounds, now); }
      case CaptureSaved(tick, id, c) => SavedDated(db, tick, id, c, bounds);
      case TickRecorded(id, tick) => TickDated(db, id, tick, bounds);
      case CaptureReleased(id) => ReleasedDated(db, id, bounds);
      case _ => RowsUntouched(db, t);
    }
  }

  lemma TickDated(db: DB, id: string, tick: Tick, bounds: Day -> (int, int))
    requires Dated(db, bounds)
    ensures Dated(RecordTick(db, id, tick), bounds)
  {
  }

  lemma ReleasedDated(db: DB, id: string, bounds: Day -> (int, int))
    requires Dated(db, bounds)
    ensures Dated(MarkCaptureRetained(db, id), bounds)
  {
  }

  lemma SavedDated(db: DB, tick: Tick, id: string, c: Capture, bounds: Day -> (int, int))
    requires Dated(db, bounds) && RunProperly(db, CaptureSaved(tick, id, c), bounds)
    ensures Dated(GetOr(SaveCapture(db, tick, id, c), db), bounds)
  {
  }

  lemma OrderlyKept(db: DB, t: Transaction, bounds: Day -> (int, int))
    requires Orderly(db, bounds) && RunProperly(db, t, bounds)
    ensures Orderly(Apply(db, t), bounds)
  {
    ForeignKeysKept(db, t);
    GateKept(db, t);
    DatedKept(db, t, bounds);
  }

  /** The parts of a wedge that transactions can move. */
  predicate DayDue(db: DB, day: Day, cutoff: int) {
    && (exists k :: k in db.compactions && k.day == day)
    && (forall k :: k in db.compactions && k.day == day ==> PublishedBy(db.compactions[k], cutoff))
  }

  lemma WedgedParts(db: DB, day: Day, cutoff: int, id: string, bounds: Day -> (int, int))
    ensures Wedged(db, day, cutoff, id, bounds) <==>
      && Dated(db, bounds) && bounds(day).0 + TextTime.SECOND <= bounds(day).1
      && day !in db.summaries && DayDue(db, day, cutoff)
      && LiveCaptures(db, day) == {} && FirstSecondAfter(db, day, bounds(day).1, id)
  {
  }

  lemma DueAside(db: DB, after: DB, day: Day, cutoff: int)
    requires DayDue(db, day, cutoff)
    requires forall k: Revision :: k.day == day ==> (k in after.compactions <==> k in db.compactions)
    requires forall k :: k in db.compactions && k.day == day ==>
      after.compactions[k].publishedAt == db.compactions[k].publishedAt
    ensures DayDue(after, day, cutoff)
  {
    var k :| k in db.compactions && k.day == day;
    assert k in after.compactions;
  }

  lemma DueAdded(db: DB, after: DB, k: Revision, c: Compaction, day: Day, cutoff: int)
    requires DayDue(db, day, cutoff) && after.compactions == db.compactions[k := c] && k !in db.compactions
    ensures DayDue(after, day, cutoff) <==> (k.day == day ==> PublishedBy(c, cutoff))
  {
    var j :| j in db.compactions && j.day == day;
    assert j in after.compactions && k in after.compactions;
    forall i | i in after.compactions && i.day == day && i != k ensures PublishedBy(after.compactions[i], cutoff) {
      assert i in db.compactions;
    }
  }

  lemma DueRepublished(db: DB, after: DB, k: Revision, now: int, day: Day, cutoff: int)
    requires DayDue(db, day, cutoff) && k in db.compactions && k.day == day
    requires after.compactions == db.compactions[k := Publish(db.compactions[k], now)]
    ensures DayDue(after, day, cutoff) <==> now <= cutoff
  {
    assert k in after.compactions && after.compactions[k].publishedAt == Some(now);
    forall i | i in after.compactions && i.day == day && i != k ensures PublishedBy(after.compactions[i], cutoff) {
      assert i in db.compactions;
    }
  }

  lemma DueVerified(db: DB, u: UploadKey, remote: string, now: int, day: Day, cutoff: int)
    requires ForeignKeys(db) && GateExact(db) && DayDue(db, day, cutoff) && u in db.uploads
    ensures DayDue(MarkUploadVerified(db, u, remote, now).value, day, cutoff) <==> (u.0.day == day ==> now <= cutoff)
  {
    var after := MarkUploadVerified(db, u, remote, now).value;
    if u.0.day == day {
      assert u.0 in db.compactions && PublishedBy(db.compactions[u.0], cutoff);
      LateVerificationMovesPublication(db, u, remote, now);
      DueRepublished(db, after, u.0, now, day, cutoff);
    } else {
      DueAside(db, after, day, cutoff);
    }
  }

  lemma DueRetired(db: DB, d: string, reason: string, now: int, day: Day, cutoff: int)
    requires DayDue(db, day, cutoff)
    ensures DayDue(RetireDestination(db, d, reason, now), day, cutoff)
  {
    var after := RetireDestination(db, d, reason, now);
    forall k | k in db.compactions && k.day == day
      ensures after.compactions[k].publishedAt == db.compactions[k].publishedAt
    {
      assert PublishedBy(db.compactions[k], cutoff);
    }
    DueAside(db, after, day, cutoff);
  }

  /** Revisions: those of the day stay due exactly when none was added or republished past the cutoff. */
  lemma DueExactly(db: DB, t: Transaction, day: Day, cutoff: int, id: string)
    requires ForeignKeys(db) && GateExact(db) && DayDue(db, day, cutoff) && id in db.captures
    requires !t.CaptureSaved? && !t.DaySummarised?
    ensures DayDue(Apply(db, t), day, cutoff) <==> !Releases(db, t, day, cutoff, id)
  {
    match t {
      case UploadVerified(u, remote, now) =>
        if u in db.uploads { DueVerified(db, u, remote, now, day, cutoff); }
      case CompactionSaved(k, c, ids, ds, now) =>
        if SaveCompaction(db, k, c, ids, ds, now).Some? { DueAdded(db, Apply(db, t), k, c, day, cutoff); }
      case CompactionAdopted(k, c, ins, ex, ds, now) =>
        if AdoptCompaction(db, k, c, ins, ex, ds, now).Some? { DueAdded(db, Apply(db, t), k, c, day, cutoff); }
      case Retired(d, reason, now) => DueRetired(db, d, reason, now, day, cutoff);
      case _ => StaysDue(db, t, day, cutoff, id);
    }
  }

  /** A transaction that neither adds a revision nor verifies or retires an upload leaves the day due. */
  lemma StaysDue(db: DB, t: Transaction, day: Day, cutoff: int, id: string)
    requires ForeignKeys(db) && GateExact(db) && DayDue(db, day, cutoff) && id in db.captures
    requires !t.CaptureSaved? && !t.DaySummarised? && !t.UploadVerified? && !t.Retired?
    requires !t.CompactionSaved? && !t.CompactionAdopted?
    ensures DayDue(Apply(db, t), day, cutoff) && !Releases(db, t, day, cutoff, id)
  {
    PublicationsAside(db, t);
    DueAside(db, Apply(db, t), day, cutoff);
  }

  lemma PublicationsAside(db: DB, t: Transaction)
    requires !t.UploadVerified? && !t.CompactionSaved? && !t.CompactionAdopted? && !t.Retired?
    ensures Apply(db, t).compactions.Keys == db.compactions.Keys
    ensures forall k :: k in db.compactions ==>
      Apply(db, t).compactions[k].publishedAt == db.compactions[k].publishedAt
  {
  }

  /** The captures and the summary: touched by nothing else. */
  lemma CapturesAside(db: DB, t: Transaction, day: Day, end: int, id: string)
    requires FirstSecondAfter(db, day, end, id) && LiveCaptures(db, day) == {} && day !in db.summaries
    requires !t.CaptureSaved? && !t.DaySummarised?
    ensures var after := Apply(db, t);
      FirstSecondAfter(after, day, end, id) && LiveCaptures(after, day) == {} && day !in after.summaries
  {
    if t.CaptureReleased? {
      assert LiveCaptures(Apply(db, t), day) <= LiveCaptures(db, day);
    } else if t.TickRecorded? {
    } else {
      RowsUntouched(db, t);
    }
  }

  ghost predicate ReleasedExactly(db: DB, t: Transaction, day: Day, cutoff: int, id: string, bounds: Day -> (int, int))
    requires id in db.captures
  {
    Wedged(Apply(db, t), day, cutoff, id, bounds) <==> !Releases(db, t, day, cutoff, id)
  }

  lemma SavedReleasesExactly(db: DB, tick: Tick, new_: string, c: Capture, day: Day, cutoff: int, id: string,
                             bounds: Day -> (int, int))
    requires Wedged(db, day, cutoff, id, bounds) && RunProperly(db, CaptureSaved(tick, new_, c), bounds)
    ensures ReleasedExactly(db, CaptureSaved(tick, new_, c), day, cutoff, id, bounds)
  {
    var after := Apply(db, CaptureSaved(tick, new_, c));
    DatedKept(db, CaptureSaved(tick, new_, c), bounds);
    if !CaptureConflict(db, new_, c) {
      assert after.captures == db.captures[new_ := c];
      if c.day == day && c.rawPath.Live? {
        assert new_ in LiveCaptures(after, day);
      } else {
        assert LiveCaptures(after, day) == LiveCaptures(db, day);
      }
    }
  }

  lemma SummaryReleasesExactly(db: DB, d: Day, now: int, day: Day, cutoff: int, id: string, bounds: Day -> (int, int))
    requires Wedged(db, day, cutoff, id, bounds)
    ensures ReleasedExactly(db, DaySummarised(d, bounds(d).0, bounds(d).1, now), day, cutoff, id, bounds)
  {
    if d == day {
      assert BlocksSummary(db, day, bounds(day).0, bounds(day).1, id);
    } else if SummarizeDay(db, d, bounds(d).0, bounds(d).1, now).Done? {
      OtherDaySummarised(db, d, now, day, cutoff, id, bounds);
    }
  }

  lemma OtherDaySummarised(db: DB, d: Day, now: int, day: Day, cutoff: int, id: string, bounds: Day -> (int, int))
    requires Wedged(db, day, cutoff, id, bounds) && d != day
    requires SummarizeDay(db, d, bounds(d).0, bounds(d).1, now).Done?
    ensures ReleasedExactly(db, DaySummarised(d, bounds(d).0, bounds(d).1, now), day, cutoff, id, bounds)
  {
    var e := SummarizeDay(db, d, bounds(d).0, bounds(d).1, now).db;
    DatedAfter(db, d, bounds, now);
    SummaryTakesOwnDay(db, d, bounds(d).0, bounds(d).1, now, day, id);
    WedgedParts(db, day, cutoff, id, bounds);
    WedgedParts(e, day, cutoff, id, bounds);
  }

  /** Summarising a day takes its captures away, and of another day nothing. */
  lemma SummaryTakesOwnDay(db: DB, d: Day, start: int, end: int, now: int, day: Day, id: string)
    requires SummarizeDay(db, d, start, end, now).Done? && d != day
    ensures var e := SummarizeDay(db, d, start, end, now).db;
      && e.compactions == db.compactions && (day in e.summaries <==> day in db.summaries)
      && (LiveCaptures(db, day) == {} ==> LiveCaptures(e, day) == {})
      && (id in e.captures <==> id in db.captures && db.captures[id].day != d)
      && (id in e.captures ==> e.captures[id] == db.captures[id])
  {
    var e := SummarizeDay(db, d, start, end, now).db;
    assert LiveCaptures(e, day) <= LiveCaptures(db, day);
  }

  /** Exactly these transactions release a wedge. */
  lemma WedgeReleasedExactly(db: DB, t: Transaction, day: Day, cutoff: int, id: string, bounds: Day -> (int, int))
    requires Orderly(db, bounds) && RunProperly(db, t, bounds) && Wedged(db, day, cutoff, id, bounds)
    ensures ReleasedExactly(db, t, day, cutoff, id, bounds)
  {
    if t.CaptureSaved? {
      SavedReleasesExactly(db, t.tick, t.id, t.capture, day, cutoff, id, bounds);
    } else if t.DaySummarised? {
      SummaryReleasesExactly(db, t.day, t.now, day, cutoff, id, bounds);
    } else {
      OtherReleasesExactly(db, t, day, cutoff, id, bounds);
    }
  }

  lemma OtherReleasesExactly(db: DB, t: Transaction, day: Day, cutoff: int, id: string, bounds: Day -> (int, int))
    requires Orderly(db, bounds) && RunProperly(db, t, bounds) && Wedged(db, day, cutoff, id, bounds)
    requires !t.CaptureSaved? && !t.DaySummarised?
    ensures ReleasedExactly(db, t, day, cutoff, id, bounds)
  {
    WedgedParts(db, day, cutoff, id, bounds);
    WedgedParts(Apply(db, t), day, cutoff, id, bounds);
    DatedKept(db, t, bounds);
    DueExactly(db, t, day, cutoff, id);
    CapturesAside(db, t, day, bounds(day).1, id);
  }

  // ---- summary passes among other transactions ----

  datatype Event = Ran(t: Transaction) | Cleaned(p: Pass)

  function AfterEvents(db: DB, events: seq<Event>, bounds: Day -> (int, int)): DB {
    if |events| == 0 then db
    else
      var e := AfterEvents(db, events[..|events|-1], bounds);
      match events[|events|-1]
      case Ran(t) => Apply(e, t)
      case Cleaned(p) => SummaryPass(e, p.days, bounds, p.now).0
  }

  /** Each transaction is run properly and does not release the wedge, and each pass takes its candidates from the
      tables it finds, at a cutoff no earlier than the wedge's. */
  ghost predicate KeepWedged(db: DB, events: seq<Event>, day: Day, cutoff: int, id: string, bounds: Day -> (int, int)) {
    |events| > 0 ==>
      var front := events[..|events|-1];
      var e := AfterEvents(db, front, bounds);
      && KeepWedged(db, front, day, cutoff, id, bounds)
      && match events[|events|-1]
         case Ran(t) => RunProperly(e, t, bounds) && (id in e.captures ==> !Releases(e, t, day, cutoff, id))
         case Cleaned(p) => cutoff <= p.cutoff && Lists(e, p.days, p.cutoff, bounds)
  }

  ghost predicate EveryPassStops(db: DB, events: seq<Event>, bounds: Day -> (int, int)) {
    |events| > 0 ==>
      var front, last := events[..|events|-1], events[|events|-1];
      && EveryPassStops(db, front, bounds)
      && (last.Cleaned? ==> !SummaryPass(AfterEvents(db, front, bounds), last.p.days, bounds, last.p.now).1)
  }

  lemma {:induction false} PassKeepsOrder(db: DB, days: seq<Day>, bounds: Day -> (int, int), now: int)
    requires Orderly(db, bounds)
    ensures Orderly(SummaryPass(db, days, bounds, now).0, bounds)
    decreases |days|
  {
    if |days| > 0 {
      var t := DaySummarised(days[0], bounds(days[0]).0, bounds(days[0]).1, now);
      var r := SummarizeDay(db, t.day, t.start, t.end, now);
      OrderlyKept(db, t, bounds);
      if !r.Failed? {
        PassKeepsOrder(if r.Done? then r.db else db, days[1..], bounds, now);
      }
    }
  }

  /** The refusal lasts until it is released: among any other transactions, as long as none of those listed runs, every
      pass stops at or before the wedged day, which is never summarised, and the capture in its way is never deleted. */
  lemma {:induction false} StuckUntilReleased(db: DB, events: seq<Event>, day: Day, cutoff: int, id: string,
                                              bounds: Day -> (int, int))
    requires Orderly(db, bounds) && Wedged(db, day, cutoff, id, bounds)
    requires KeepWedged(db, events, day, cutoff, id, bounds)
    ensures EveryPassStops(db, events, bounds) && Orderly(AfterEvents(db, events, bounds), bounds)
    ensures Wedged(AfterEvents(db, events, bounds), day, cutoff, id, bounds)
  {
    if |events| > 0 {
      var front, last := events[..|events|-1], events[|events|-1];
      StuckUntilReleased(db, front, day, cutoff, id, bounds);
      var e := AfterEvents(db, front, bounds);
      match last {
        case Ran(t) =>
          OrderlyKept(e, t, bounds);
          WedgeReleasedExactly(e, t, day, cutoff, id, bounds);
        case Cleaned(p) =>
          PassKeepsOrder(e, p.days, bounds, p.now);
          WedgedPassStuck(e, day, cutoff, id, bounds, p);
      }
    }
  }

  const ONE := Day(Stream("a", "b"), "1970-01-01")
  const TWO := Day(Stream("a", "b"), "1970-01-02")
  const DAY_LENGTH := 86_400_000_000_000

  /** A first day that is published and retained, and a second with one capture half a second after midnight. */
  const WEDGE: DB := DB(
    map["t" := Tick(Stream("a", "b"), 86_400_500_000_000, "captured", "", "", 200, 1)],
    map["c" := Capture("t", Day(Stream("a", "b"), "1970-01-02"), 86_400_500_000_000, "h", 1, Retained, Retained,
      "valid", true)],
    map[Revision(Day(Stream("a", "b"), "1970-01-01"), 1) :=
      Compaction("published", "dir", "", "m", "", 0, 0, 0, [], 50, Some(100))],
    {}, map[], map[])

  function TwoDays(): Day -> (int, int) {
    d => if d == ONE then (0, DAY_LENGTH) else if d == TWO then (DAY_LENGTH, 2 * DAY_LENGTH) else (0, 0)
  }

  /** A concrete wedge: the first day is due for its summary and is refused, now and in every later pass. */
  lemma WedgeExample()
    ensures Wedged(WEDGE, ONE, 200, "c", TwoDays()) && SummarizeDay(WEDGE, ONE, 0, DAY_LENGTH, 0) == Failed
  {
    assert TWO.date[9] == '2' && ONE.date[9] == '1';
    var k := Revision(ONE, 1);
    assert k in WEDGE.compactions && k.day == ONE;
    assert "t" in WindowTicks(WEDGE, ONE.stream, 0, DAY_LENGTH);
    assert BlocksSummary(WEDGE, ONE, 0, DAY_LENGTH, "c");
  }

  /** A late verification releases the concrete wedge, for cutoffs before it. */
  lemma ReleaseExample()
    ensures var k := Revision(ONE, 1);
      var db := WEDGE.(uploads := map[(k, "d") := QueuedUpload(false, 50)]);
      var after := Apply(db, UploadVerified((k, "d"), "r", 900));
      && Wedged(db, ONE, 200, "c", TwoDays())
      && !SummaryCandidate(after, ONE, 200) && !Wedged(after, ONE, 200, "c", TwoDays())
  {
    WedgeExample();
    var k := Revision(ONE, 1);
    var db := WEDGE.(uploads := map[(k, "d") := QueuedUpload(false, 50)]);
    assert LiveCaptures(db, ONE) == LiveCaptures(WEDGE, ONE);
    NotDueAfter(db, k, "d", 900, 200);
  }

  lemma NotDueAfter(db: DB, k: Revision, d: string, now: int, cutoff: int)
    requires GateExact(db) && k in db.compactions && Published(db, k) && (k, d) in db.uploads && now > cutoff
    ensures !SummaryCandidate(Apply(db, UploadVerified((k, d), "r", now)), k.day, cutoff)
  {
    LateVerificationMovesPublication(db, (k, d), "r", now);
    assert k in Apply(db, UploadVerified((k, d), "r", now)).compactions;
  }

  // ---- compaction of a day ----

  function LinkedInputs(db: DB, k: Revision): set<string> {
    set i | i in db.inputs && i.0 == k :: i.1
  }

  /** A day needs compaction exactly when it has ticks in its window, no summary, and its latest revision does not list
      precisely its captures, or lists inputs that have no capture row any more. */
  lemma NeedsCompactionExactly(db: DB, day: Day, start: int, end: int)
    requires RevisionNumbers(db, day) != {}
    requires var k := Revision(day, LatestRevision(db, day)); db.compactions[k].rows >= |LinkedInputs(db, k)|
    ensures var k := Revision(day, LatestRevision(db, day));
      DayNeedsCompaction(db, day, start, end) <==>
      && day !in db.summaries && WindowTicks(db, day.stream, start, end) != {}
      && (LinkedInputs(db, k) != DayCaptures(db, day) || db.compactions[k].rows > |LinkedInputs(db, k)|)
  {
    var k := Revision(day, LatestRevision(db, day));
    var linked, ids := LinkedInputs(db, k), DayCaptures(db, day);
    if forall id :: id in ids ==> (k, id) in db.inputs {
      assert ids <= linked;
      SubsetSize(ids, linked);
      if |linked| == |ids| {
        SubsetOfSameSize(ids, linked);
      }
    } else {
      var id :| id in ids && (k, id) !in db.inputs;
      assert id !in linked;
    }
  }

  lemma {:induction false} LinkedSize(db: DB, inputs: seq<Input>)
    ensures |Linked(db, inputs)| <= |inputs|
    ensures (exists i :: i in inputs && i.id !in db.captures) ==> |Linked(db, inputs)| < |inputs|
  {
    if |inputs| > 0 {
      LinkedSize(db, inputs[..|inputs|-1]);
    }
  }

  lemma AdoptedLinks(db: DB, k: Revision, c: Compaction, inputs: seq<Input>, excluded: set<string>,
                     destinations: map<string, bool>, now: int)
    requires ForeignKeys(db) && AdoptCompaction(db, k, c, inputs, excluded, destinations, now).Some?
    requires exists i :: i in inputs && i.id !in db.captures
    ensures |LinkedInputs(AdoptCompaction(db, k, c, inputs, excluded, destinations, now).value, k)| < |inputs|
  {
    var after, linked := AdoptCompaction(db, k, c, inputs, excluded, destinations, now).value, Linked(db, inputs);
    LinkedSize(db, inputs);
    DistinctSize(linked);
    assert LinkedInputs(after, k) == (set id | id in linked) by {
      assert forall i :: i in db.inputs ==> i.0 != k;
      forall id ensures id in LinkedInputs(after, k) <==> id in linked {
        assert (k, id) in after.inputs <==> (k, id) in Links(k, linked);
      }
    }
  }

  /** A day whose adopted revision had to leave an excluded input unlinked is compacted again. */
  lemma AdoptedShortIsCompactedAgain(db: DB, k: Revision, c: Compaction, inputs: seq<Input>, excluded: set<string>,
                                     destinations: map<string, bool>, now: int, start: int, end: int)
    requires ForeignKeys(db) && Gapless(db, k.day) && k.number == NextRevision(db, k.day) && c.rows == |inputs|
    requires AdoptCompaction(db, k, c, inputs, excluded, destinations, now).Some?
    requires k.day !in db.summaries && WindowTicks(db, k.day.stream, start, end) != {}
    requires exists i :: i in inputs && i.id !in db.captures
    ensures DayNeedsCompaction(AdoptCompaction(db, k, c, inputs, excluded, destinations, now).value, k.day, start, end)
  {
    var after := AdoptCompaction(db, k, c, inputs, excluded, destinations, now).value;
    AdoptedLinks(db, k, c, inputs, excluded, destinations, now);
    ShortNeedsCompaction(db, after, k, start, end);
  }

  lemma ShortNeedsCompaction(db: DB, after: DB, k: Revision, start: int, end: int)
    requires Gapless(db, k.day) && k.number == NextRevision(db, k.day)
    requires after.compactions.Keys == db.compactions.Keys + {k} && after.ticks == db.ticks
      && after.summaries == db.summaries
    requires k.day !in db.summaries && WindowTicks(db, k.day.stream, start, end) != {}
    requires k in after.compactions && after.compactions[k].rows > |LinkedInputs(after, k)|
    ensures DayNeedsCompaction(after, k.day, start, end)
  {
    NumbersExtend(db, after, k);
    assert WindowTicks(after, k.day.stream, start, end) == WindowTicks(db, k.day.stream, start, end);
    NeedsCompactionExactly(after, k.day, start, end);
  }

  lemma SubsetOfSameSize<T>(a: set<T>, b: set<T>)
    requires a <= b && |a| == |b|
    ensures a == b
  {
    assert b == a + (b - a);
  }

  /** The revision numbers of a day are 1 up to the latest. */
  ghost predicate Gapless(db: DB, day: Day) {
    forall n :: n in RevisionNumbers(db, day) <==> 1 <= n <= LatestRevision(db, day)
  }

  lemma NextRevisionNumber(db: DB, day: Day)
    requires Gapless(db, day)
    ensures NextRevision(db, day) == LatestRevision(db, day) + 1 && LatestRevision(db, day) >= 0
    ensures Revision(day, NextRevision(db, day)) !in db.compactions
  {
    if RevisionNumbers(db, day) != {} {
      var m := MaxOf(RevisionNumbers(db, day));
      assert m in RevisionNumbers(db, day);
    }
    assert forall k :: k in db.compactions && k.day == day ==> k.number in RevisionNumbers(db, day);
  }

  lemma NumbersExtend(db: DB, after: DB, k: Revision)
    requires Gapless(db, k.day) && k.number == NextRevision(db, k.day)
    requires after.compactions.Keys == db.compactions.Keys + {k}
    ensures RevisionNumbers(after, k.day) == RevisionNumbers(db, k.day) + {k.number}
    ensures LatestRevision(after, k.day) == k.number && Gapless(after, k.day)
  {
    NextRevisionNumber(db, k.day);
    var old_, new_ := RevisionNumbers(db, k.day), RevisionNumbers(after, k.day);
    forall m ensures m in new_ <==> m in old_ + {k.number} {
      if m in new_ {
        var j :| j in after.compactions && j.day == k.day && j.number == m;
        assert j == k || j in db.compactions;
      }
      if m in old_ {
        var j :| j in db.compactions && j.day == k.day && j.number == m;
        assert j in after.compactions;
      }
      if m == k.number {
        assert k in after.compactions;
      }
    }
    assert k.number in new_;
  }

  /** Compacting the listed captures of a day succeeds, extends the revisions by the next number, and leaves
      nothing to compact. */
  lemma CompactionConverges(db: DB, day: Day, c: Compaction, ids: seq<string>, ds: map<string, bool>, now: int,
                            start: int, end: int)
    requires ForeignKeys(db) && Gapless(db, day)
    requires Distinct(ids) && (set id | id in ids) == DayCaptures(db, day) && c.rows == |ids|
    ensures var k := Revision(day, NextRevision(db, day));
      var after := SaveCompaction(db, k, c, ids, ds, now);
      && after.Some?
      && LatestRevision(after.value, day) == NextRevision(db, day)
      && Gapless(after.value, day)
      && !DayNeedsCompaction(after.value, day, start, end)
  {
    var k := Revision(day, NextRevision(db, day));
    NextRevisionNumber(db, day);
    assert forall id :: id in ids ==> id in DayCaptures(db, day);
    var after := SaveCompaction(db, k, c, ids, ds, now).value;
    NumbersExtend(db, after, k);
    SavedListsDay(db, k, c, ids, ds, now);
    NothingToCompact(after, day, start, end);
  }

  /** The saved revision lists exactly the captures of its day. */
  lemma SavedListsDay(db: DB, k: Revision, c: Compaction, ids: seq<string>, ds: map<string, bool>, now: int)
    requires SaveCompaction(db, k, c, ids, ds, now).Some?
    requires Distinct(ids) && (set id | id in ids) == DayCaptures(db, k.day) && c.rows == |ids|
    ensures var after := SaveCompaction(db, k, c, ids, ds, now).value;
      && k in after.compactions && after.compactions[k].rows == |DayCaptures(after, k.day)|
      && forall id :: id in DayCaptures(after, k.day) ==> (k, id) in after.inputs
  {
    var after := SaveCompaction(db, k, c, ids, ds, now).value;
    assert DayCaptures(after, k.day) == DayCaptures(db, k.day);
    DistinctSize(ids);
    forall id | id in DayCaptures(after, k.day) ensures (k, id) in after.inputs {
      assert id in (set i | i in ids);
    }
  }

  lemma NothingToCompact(db: DB, day: Day, start: int, end: int)
    requires RevisionNumbers(db, day) != {}
    requires var k := Revision(day, LatestRevision(db, day));
      && k in db.compactions && db.compactions[k].rows == |DayCaptures(db, day)|
      && forall id :: id in DayCaptures(db, day) ==> (k, id) in db.inputs
    ensures !DayNeedsCompaction(db, day, start, end)
  {
  }

  lemma {:induction false} DistinctSize<T>(s: seq<T>)
    requires Distinct(s)
    ensures |set x | x in s| == |s|
  {
    if |s| > 0 {
      var front, last := s[..|s|-1], s[|s|-1];
      DistinctSize(front);
      assert (set x | x in s) == (set x | x in front) + {last} by {
        assert s == front + [last];
      }
      assert last !in front;
    }
  }

  /** A capture registered after the revision makes its day need compaction again. */
  lemma LateCaptureReopens(db: DB, day: Day, tick: Tick, id: string, c: Capture, start: int, end: int)
    requires ForeignKeys(db) && !CaptureConflict(db, id, c) && c.day == day
    requires day !in db.summaries && WindowTicks(db, day.stream, start, end) != {}
    ensures DayNeedsCompaction(SaveCapture(db, tick, id, c).value, day, start, end)
  {
    var after := SaveCapture(db, tick, id, c).value;
    var t :| t in WindowTicks(db, day.stream, start, end);
    assert t in WindowTicks(after, day.stream, start, end);
    assert RevisionNumbers(after, day) == RevisionNumbers(db, day);
    if RevisionNumbers(after, day) != {} {
      assert id in DayCaptures(after, day) && (Revision(day, LatestRevision(after, day)), id) !in after.inputs;
    }
  }

  /** The text window of a day holds no tick exactly when every tick of the stream that is due from its start to the
      first second after its end, other than at that end, lies strictly inside its first second. */
  lemma WindowEmptyExactly(db: DB, stream: Stream, start: int, end: int)
    requires start + TextTime.SECOND <= end
    ensures WindowTicks(db, stream, start, end) == {} <==> forall id :: TickIn(db, stream, start, end, id) ==>
      start < db.ticks[id].scheduledAt < start + TextTime.SECOND
  {
    if WindowTicks(db, stream, start, end) != {} {
      var id :| id in WindowTicks(db, stream, start, end);
      assert TickIn(db, stream, start, end, id);
    }
    forall id | TickIn(db, stream, start, end, id) && WindowTicks(db, stream, start, end) == {}
      ensures start < db.ticks[id].scheduledAt < start + TextTime.SECOND
    {
      assert id !in WindowTicks(db, stream, start, end);
    }
  }

  predicate TickIn(db: DB, stream: Stream, start: int, end: int, id: string) {
    && id in db.ticks && db.ticks[id].stream == stream
    && start <= db.ticks[id].scheduledAt < end + TextTime.SECOND && db.ticks[id].scheduledAt != end
  }

  /** A day without a revision or a summary is skipped by compaction, whatever it captured, exactly when all its ticks
      lie strictly inside its first second. */
  lemma FirstSecondDayIsSkipped(db: DB, day: Day, start: int, end: int)
    requires start + TextTime.SECOND <= end && day !in db.summaries && RevisionNumbers(db, day) == {}
    ensures !DayNeedsCompaction(db, day, start, end) <==> forall id :: TickIn(db, day.stream, start, end, id) ==>
      start < db.ticks[id].scheduledAt < start + TextTime.SECOND
  {
    WindowEmptyExactly(db, day.stream, start, end);
  }

  /** A concrete day with a capture that is never compacted: its one tick is due half a second after midnight. */
  lemma SkippedExample()
    ensures var day := Day(Stream("a", "b"), "1970-01-01");
      var tick := Tick(day.stream, 500_000_000, "captured", "", "", 200, 1);
      var capture := Capture("t", day, 500_000_000, "h", 1, Live("r"), Live("s"), "valid", true);
      var db := DB(map["t" := tick], map["c" := capture], map[], {}, map[], map[]);
      DayCaptures(db, day) == {"c"} && !DayNeedsCompaction(db, day, 0, 86_400_000_000_000)
  {
    var day := Day(Stream("a", "b"), "1970-01-01");
    var tick := Tick(day.stream, 500_000_000, "captured", "", "", 200, 1);
    var capture := Capture("t", day, 500_000_000, "h", 1, Live("r"), Live("s"), "valid", true);
    var db := DB(map["t" := tick], map["c" := capture], map[], {}, map[], map[]);
    FirstSecondDayIsSkipped(db, day, 0, 86_400_000_000_000);
  }

  // ---- retention candidates ----

  /** What a raw retention candidate guarantees: some revision lists the capture, every revision listing it
      is published, and each required upload of those revisions is verified or retired. */
  predicate Released(db: DB, id: string) {
    && (exists i :: i in db.inputs && i.1 == id)
    && (forall i :: i in db.inputs && i.1 == id ==>
        Published(db, i.0) && forall u :: u in db.uploads && u.0 == i.0 && db.uploads[u].required ==>
          Settled(db.uploads[u].status))
  }

  lemma CandidateIsReleased(db: DB, id: string, cutoff: int)
    requires ForeignKeys(db) && GateExact(db) && RawCandidate(db, id, cutoff)
    ensures Released(db, id)
  {
    forall i | i in db.inputs && i.1 == id
      ensures Published(db, i.0) && forall u :: u in db.uploads && u.0 == i.0 && db.uploads[u].required ==>
        Settled(db.uploads[u].status)
    {
      forall u | u in db.uploads && u.0 == i.0 && db.uploads[u].required ensures Settled(db.uploads[u].status) {
        assert HasRequired(db, i.0) && !PendingRequired(db.uploads, i.0);
      }
    }
  }
}
