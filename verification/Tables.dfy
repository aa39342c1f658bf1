/** The state database: its tables as values and each transaction as a function on them. Rows of
    compactions and uploads are keyed by their UNIQUE columns. */
module Tables {
  import opened Prelude
  import TextTime

  datatype Stream = Stream(source: string, stream: string)
  datatype Day = Day(stream: Stream, date: string)
  datatype Revision = Revision(day: Day, number: int)

  datatype Tick = Tick(stream: Stream, scheduledAt: int, result: string, skipReason: string, errorCategory: string,
                       httpStatus: int, attempts: int)

  /** raw_path and sidecar_path: a stored path, or the `@retained/` sentinel. */
  datatype FileRef = Live(path: string) | Retained

  datatype Capture = Capture(tickId: string, day: Day, scheduledAt: int, sha256: string, decodedLength: nat,
                             rawPath: FileRef, sidecarPath: FileRef, parseStatus: string, transportComplete: bool)

  datatype Compaction = Compaction(status: string, directory: string, dataPath: string, manifestPath: string,
                                   dataSha256: string, dataBytes: nat, rows: int, entities: int,
                                   requiredDestinations: seq<string>, createdAt: int, publishedAt: Option<int>)

  datatype Status = Pending | Uploading | Retry | PermanentFailure | Verified | RetiredByOperator | Expired

  datatype Upload = Upload(required: bool, status: Status, attempts: nat, nextAttemptAt: int, lastError: string,
                           remotePath: string, completedAt: Option<int>)

  datatype Summary = Summary(scheduledTicks: nat, skippedTicks: nat, captured: nat, valid: nat, invalid: nat,
                             httpFailures: nat, networkFailures: nat, parseCounts: map<string, nat>, summarizedAt: int)

  type UploadKey = (Revision, string)

  datatype DB = DB(ticks: map<string, Tick>, captures: map<string, Capture>, compactions: map<Revision, Compaction>,
                   inputs: set<(Revision, string)>, uploads: map<UploadKey, Upload>, summaries: map<Day, Summary>)

  // ---- queries ----

  /** `t >= boundary` on the stored text, for a whole-second boundary. */
  predicate TextAtLeast(t: int, boundary: int) {
    t == boundary || t >= boundary + TextTime.SECOND
  }

  predicate InTextWindow(t: int, start: int, end: int) {
    TextAtLeast(t, start) && !TextAtLeast(t, end)
  }

  /** The integer filter is the one SQLite evaluates on the encoded text. */
  lemma TextWindowIsTextual(t: TextTime.Instant, start: TextTime.Instant, end: TextTime.Instant)
    requires TextTime.Valid(t) && TextTime.Valid(start) && TextTime.Valid(end) && start.nanos == 0 && end.nanos == 0
    ensures InTextWindow(TextTime.Nanos(t), TextTime.Nanos(start), TextTime.Nanos(end))
      <==> TextTime.TextAtLeast(t, start) && !TextTime.TextAtLeast(t, end)
  {
    TextTime.BoundaryFilter(t, start);
    TextTime.BoundaryFilter(t, end);
  }

  function WindowTicks(db: DB, stream: Stream, start: int, end: int): set<string> {
    set id | id in db.ticks && db.ticks[id].stream == stream && InTextWindow(db.ticks[id].scheduledAt, start, end)
  }

  function DayCaptures(db: DB, day: Day): set<string> {
    set id | id in db.captures && db.captures[id].day == day
  }

  function LiveCaptures(db: DB, day: Day): set<string> {
    set id | id in db.captures && db.captures[id].day == day && db.captures[id].rawPath.Live?
  }

  function RevisionNumbers(db: DB, day: Day): set<int> {
    set k | k in db.compactions && k.day == day :: k.number
  }

  /** SELECT MAX(revision), or 0 when there is none. */
  ghost function LatestRevision(db: DB, day: Day): (n: int)
    ensures RevisionNumbers(db, day) != {} ==> Revision(day, n) in db.compactions && n in RevisionNumbers(db, day)
  {
    if RevisionNumbers(db, day) == {} then 0
    else
      var n := MaxOf(RevisionNumbers(db, day));
      assert exists k :: k in db.compactions && k.day == day && k.number == n && k == Revision(day, n);
      n
  }

  ghost function NextRevision(db: DB, day: Day): int {
    if RevisionNumbers(db, day) == {} then 1 else MaxOf(RevisionNumbers(db, day)) + 1
  }

  ghost predicate DayNeedsCompaction(db: DB, day: Day, start: int, end: int) {
    if day in db.summaries || WindowTicks(db, day.stream, start, end) == {} then false
    else if RevisionNumbers(db, day) == {} then true
    else
      var latest := Revision(day, LatestRevision(db, day));
      if db.compactions[latest].rows != |DayCaptures(db, day)| then true
      else exists id :: id in DayCaptures(db, day) && (latest, id) !in db.inputs
  }

  predicate Settled(s: Status) {
    s == Verified || s == RetiredByOperator
  }

  predicate PendingRequired(uploads: map<UploadKey, Upload>, k: Revision) {
    exists d :: d in uploads && d.0 == k && uploads[d].required && !Settled(uploads[d].status)
  }

  predicate Published(db: DB, k: Revision) {
    k in db.compactions && db.compactions[k].publishedAt.Some?
  }

  /** RawRetentionCandidates: listed by some revision, and every listing revision published by the cutoff. */
  predicate RawCandidate(db: DB, id: string, cutoff: int) {
    && id in db.captures && db.captures[id].rawPath.Live?
    && (exists i :: i in db.inputs && i.1 == id && i.0 in db.compactions)
    && (forall i :: i in db.inputs && i.1 == id && i.0 in db.compactions ==>
        db.compactions[i.0].publishedAt.Some? && db.compactions[i.0].publishedAt.value <= cutoff)
  }

  predicate ParquetCandidate(db: DB, k: Revision, cutoff: int) {
    && k in db.compactions && db.compactions[k].publishedAt.Some? && db.compactions[k].publishedAt.value <= cutoff
    && db.compactions[k].manifestPath != ""
  }

  predicate SummaryCandidate(db: DB, day: Day, cutoff: int) {
    && day !in db.summaries
    && (exists k :: k in db.compactions && k.day == day)
    && (forall k :: k in db.compactions && k.day == day ==>
        db.compactions[k].publishedAt.Some? && db.compactions[k].publishedAt.value <= cutoff)
  }

  /** PendingUploads: the rows a worker of one destination picks up. */
  predicate Workable(db: DB, u: UploadKey, now: int) {
    u in db.uploads && (db.uploads[u].status == Pending || db.uploads[u].status == Retry
      || db.uploads[u].status == Uploading)
    && db.uploads[u].nextAttemptAt <= now
  }

  // ---- transactions ----

  /** INSERT ... ON CONFLICT(id) DO UPDATE of the outcome columns. */
  function UpsertTick(ticks: map<string, Tick>, id: string, t: Tick): map<string, Tick> {
    if id in ticks then ticks[id := t.(stream := ticks[id].stream, scheduledAt := ticks[id].scheduledAt)]
      else ticks[id := t]
  }

  function RecordTick(db: DB, id: string, t: Tick): DB {
    db.(ticks := UpsertTick(db.ticks, id, t))
  }

  predicate CaptureConflict(db: DB, id: string, c: Capture) {
    || id in db.captures
    || exists o :: o in db.captures &&
        (|| db.captures[o].tickId == c.tickId
         || (c.rawPath.Live? && db.captures[o].rawPath == c.rawPath)
         || (c.sidecarPath.Live? && db.captures[o].sidecarPath == c.sidecarPath))
  }

  function SaveCapture(db: DB, t: Tick, id: string, c: Capture): Option<DB> {
    if CaptureConflict(db, id, c) then None
    else Some(db.(ticks := UpsertTick(db.ticks, c.tickId, t), captures := db.captures[id := c]))
  }

  function QueuedUpload(required: bool, now: int): Upload {
    Upload(required, Pending, 0, now, "", "", None)
  }

  function Queue(k: Revision, destinations: map<string, bool>, now: int): map<UploadKey, Upload> {
    map d | d in destinations :: (k, d) := QueuedUpload(destinations[d], now)
  }

  predicate Distinct<T(==)>(s: seq<T>) {
    forall i, j :: 0 <= i < j < |s| ==> s[i] != s[j]
  }

  function Links(k: Revision, ids: seq<string>): set<(Revision, string)> {
    set id | id in ids :: (k, id)
  }

  /** The row, the inputs and the queue of one revision. Fails on a repeated revision, a repeated input or
      an input without a capture row. */
  function SaveCompaction(db: DB, k: Revision, c: Compaction, ids: seq<string>, destinations: map<string, bool>,
                          now: int): Option<DB> {
    if k in db.compactions || !Distinct(ids) || (exists id :: id in ids && id !in db.captures) then None
    else Some(db.(compactions := db.compactions[k := c], inputs := db.inputs + Links(k, ids),
                  uploads := db.uploads + Queue(k, destinations, now)))
  }

  datatype Input = Input(id: string, sha256: string)

  predicate Adoptable(db: DB, input: Input, excluded: set<string>) {
    if input.id in db.captures then db.captures[input.id].sha256 == input.sha256 else input.id in excluded
  }

  /** The inputs that still have a capture row. */
  function Linked(db: DB, inputs: seq<Input>): seq<string> {
    if |inputs| == 0 then []
    else Linked(db, inputs[..|inputs|-1])
         + (if inputs[|inputs|-1].id in db.captures then [inputs[|inputs|-1].id] else [])
  }

  function AdoptCompaction(db: DB, k: Revision, c: Compaction, inputs: seq<Input>, excluded: set<string>,
                           destinations: map<string, bool>, now: int): Option<DB> {
    if k in db.compactions || (exists i :: i in inputs && !Adoptable(db, i, excluded)) || !Distinct(Linked(db, inputs))
      then None
    else Some(db.(compactions := db.compactions[k := c], inputs := db.inputs + Links(k, Linked(db, inputs)),
                  uploads := db.uploads + Queue(k, destinations, now)))
  }

  function MarkUploadAttempt(db: DB, u: UploadKey, remote: string, next: int): DB {
    if u !in db.uploads then db
    else
      var row := db.uploads[u];
      db.(uploads := db.uploads[u := row.(status := Uploading, attempts := row.attempts + 1, lastError := "",
        remotePath := remote,
                                          nextAttemptAt := next)])
  }

  function MarkUploadFailed(db: DB, u: UploadKey, status: Status, detail: string, next: int): DB {
    if u !in db.uploads then db
    else db.(uploads := db.uploads[u := db.uploads[u].(status := status, lastError := detail, nextAttemptAt := next)])
  }

  function Publish(c: Compaction, now: int): Compaction {
    c.(status := "published", publishedAt := Some(now))
  }

  /** Fails when the row is gone. Publishes when no required row of the revision is left to settle. */
  function MarkUploadVerified(db: DB, u: UploadKey, remote: string, now: int): Option<DB> {
    if u !in db.uploads then None
    else
      var uploads := db.uploads[u := db.uploads[u].(status := Verified, lastError := "", remotePath := remote,
        completedAt := Some(now))];
      if u.0 in db.compactions && !PendingRequired(uploads, u.0)
      then Some(db.(uploads := uploads, compactions := db.compactions[u.0 := Publish(db.compactions[u.0], now)]))
      else Some(db.(uploads := uploads))
  }

  function BackfillKeys(db: DB, destination: string): set<UploadKey> {
    set k | k in db.compactions && db.compactions[k].manifestPath != "" && (k, destination) !in db.uploads ::
      (k, destination)
  }

  function EnsureDestinationBackfill(db: DB, destination: string, now: int): DB {
    db.(uploads := db.uploads + map u | u in BackfillKeys(db, destination) :: QueuedUpload(false, now))
  }

  predicate Retirable(u: UploadKey, row: Upload, destination: string) {
    u.1 == destination && row.required && !Settled(row.status)
  }

  function RetireUploads(uploads: map<UploadKey, Upload>, destination: string, reason: string, now: int): map<UploadKey,
    Upload> {
    map u | u in uploads :: if Retirable(u, uploads[u], destination)
      then uploads[u].(status := RetiredByOperator, lastError := "retired: " + reason, completedAt := Some(now),
        nextAttemptAt := now)
      else uploads[u]
  }

  predicate Releasable(uploads: map<UploadKey, Upload>, k: Revision, c: Compaction, destination: string) {
    && c.publishedAt.None?
    && (k, destination) in uploads && uploads[(k, destination)].status == RetiredByOperator
    && !PendingRequired(uploads, k)
  }

  function RetireDestination(db: DB, destination: string, reason: string, now: int): DB {
    var uploads := RetireUploads(db.uploads, destination, reason, now);
    db.(uploads := uploads,
        compactions := map k | k in db.compactions :: if Releasable(uploads, k, db.compactions[k], destination)
          then Publish(db.compactions[k], now) else db.compactions[k])
  }

  /** Retiring settles exactly the unsettled required rows of the destination; and it publishes exactly the unpublished
      revisions with a retired row of it and no required row left to settle. */
  lemma RetiresExactly(db: DB, destination: string, reason: string, now: int)
    ensures var e := RetireDestination(db, destination, reason, now);
      && e.uploads.Keys == db.uploads.Keys && e.compactions.Keys == db.compactions.Keys
      && (forall u :: u in db.uploads ==>
          e.uploads[u] == if u.1 == destination && db.uploads[u].required
              && db.uploads[u].status != Verified && db.uploads[u].status != RetiredByOperator
            then db.uploads[u].(status := RetiredByOperator, lastError := "retired: " + reason,
                                completedAt := Some(now), nextAttemptAt := now)
            else db.uploads[u])
      && (forall k :: k in db.compactions ==>
          e.compactions[k] == if && db.compactions[k].publishedAt.None? && (k, destination) in e.uploads
                                 && e.uploads[(k, destination)].status == RetiredByOperator
                                 && (forall u :: u in e.uploads && u.0 == k && e.uploads[u].required ==>
                                     e.uploads[u].status == Verified || e.uploads[u].status == RetiredByOperator)
            then db.compactions[k].(status := "published", publishedAt := Some(now)) else db.compactions[k])
  {
  }

  function MarkCaptureRetained(db: DB, id: string): DB {
    if id !in db.captures then db
    else db.(captures := db.captures[id := db.captures[id].(rawPath := Retained, sidecarPath := Retained)])
  }

  function ExpireOptional(uploads: map<UploadKey, Upload>, k: Revision): map<UploadKey, Upload> {
    map u | u in uploads :: if u.0 == k && !uploads[u].required && uploads[u].status != Verified
      then uploads[u].(status := Expired, lastError := "local_retention_elapsed") else uploads[u]
  }

  function MarkParquetRetained(db: DB, k: Revision): DB {
    db.(uploads := ExpireOptional(db.uploads, k),
        compactions := if k in db.compactions
          then db.compactions[k := db.compactions[k].(dataPath := "", manifestPath := "", dataBytes := 0)]
            else db.compactions)
  }

  function CaptureLabel(db: DB): string -> string {
    id => if id in db.captures then db.captures[id].parseStatus else ""
  }

  function ParseCounts(db: DB, day: Day): map<string, nat> {
    var ids := DayCaptures(db, day);
    map s | s in (set id | id in ids :: db.captures[id].parseStatus) :: Labelled(ids, CaptureLabel(db), s)
  }

  predicate NetworkCategory(c: string) {
    c == "dns" || c == "connect" || c == "tls" || c == "timeout" || c == "network"
  }

  function Summarised(db: DB, day: Day, start: int, end: int, now: int): Summary {
    var ticks, ids := WindowTicks(db, day.stream, start, end), DayCaptures(db, day);
    var valid := set id | id in ids && db.captures[id].parseStatus == "valid" && db.captures[id].transportComplete;
    assert ids == valid + (ids - valid);
    Summary(|ticks|, |set t | t in ticks && db.ticks[t].result == "skipped"|, |ids|, |valid|, |ids| - |valid|,
            |set t | t in ticks && db.ticks[t].errorCategory == "http_status"|,
            |set t | t in ticks && NetworkCategory(db.ticks[t].errorCategory)|, ParseCounts(db, day), now)
  }

  /** A capture row of another day whose tick the text window takes: the foreign key stops the delete. */
  predicate BlocksSummary(db: DB, day: Day, start: int, end: int, id: string) {
    id in db.captures && db.captures[id].day != day && db.captures[id].tickId in WindowTicks(db, day.stream, start, end)
  }

  datatype SummaryOutcome = NotYet | Failed | Done(db: DB)

  function SummarizeDay(db: DB, day: Day, start: int, end: int, now: int): SummaryOutcome {
    if LiveCaptures(db, day) != {} then NotYet
    else if day in db.summaries || (exists id :: id in db.captures && BlocksSummary(db, day, start, end, id))
      then Failed
    else
      Done(db.(summaries := db.summaries[day := Summarised(db, day, start, end, now)],
               inputs := (set i | i in db.inputs && i.1 !in DayCaptures(db, day)),
               captures := db.captures - DayCaptures(db, day),
               ticks := db.ticks - WindowTicks(db, day.stream, start, end)))
  }

  /** Summarising a day replaces exactly its captures, none of which is live any more, and their links by one row. */
  lemma SummaryTakesDay(db: DB, day: Day, start: int, end: int, now: int)
    requires SummarizeDay(db, day, start, end, now).Done?
    ensures var e := SummarizeDay(db, day, start, end, now).db;
      var mine := set id | id in db.captures && db.captures[id].day == day;
      && day !in db.summaries && e.summaries == db.summaries[day := e.summaries[day]]
      && e.captures == db.captures - mine && e.inputs == (set i | i in db.inputs && i.1 !in mine)
      && (forall id :: id in mine ==> db.captures[id].rawPath == Retained)
      && e.compactions == db.compactions && e.uploads == db.uploads
  {
    assert forall id :: id in DayCaptures(db, day) && db.captures[id].rawPath.Live? ==> id in LiveCaptures(db, day);
  }

  /** Valid are the captures of the day that parsed and arrived whole, invalid the others. */
  lemma SummaryCountsCaptures(db: DB, day: Day, start: int, end: int, now: int)
    requires SummarizeDay(db, day, start, end, now).Done?
    ensures var s := SummarizeDay(db, day, start, end, now).db.summaries[day];
      var mine := set id | id in db.captures && db.captures[id].day == day;
      && s.captured == |mine|
      && s.valid == |(set id | id in mine && db.captures[id].parseStatus == "valid"
                                 && db.captures[id].transportComplete)|
      && s.invalid == |(set id | id in mine && !(db.captures[id].parseStatus == "valid"
                                                 && db.captures[id].transportComplete))|
  {
    var mine, s := DayCaptures(db, day), Summarised(db, day, start, end, now);
    assert SummarizeDay(db, day, start, end, now).db.summaries[day] == s;
    var valid := set id | id in mine && db.captures[id].parseStatus == "valid" && db.captures[id].transportComplete;
    var rest := set id | id in mine && !(db.captures[id].parseStatus == "valid" && db.captures[id].transportComplete);
    SplitSize(mine, valid, rest);
  }

  /** Each parse status is counted as often as it occurs. */
  lemma SummaryCountsStatuses(db: DB, day: Day, start: int, end: int, now: int, status: string)
    requires SummarizeDay(db, day, start, end, now).Done?
    ensures var counts := SummarizeDay(db, day, start, end, now).db.summaries[day].parseCounts;
      var those := set id | id in db.captures && db.captures[id].day == day && db.captures[id].parseStatus == status;
      (status in counts <==> those != {}) && (status in counts ==> counts[status] == |those|)
  {
    var those := set id | id in db.captures && db.captures[id].day == day && db.captures[id].parseStatus == status;
    var counts := ParseCounts(db, day);
    LabelledAre(DayCaptures(db, day), CaptureLabel(db), status, those);
    if those != {} {
      var id :| id in those;
      assert id in DayCaptures(db, day) && db.captures[id].parseStatus in counts;
    }
    if status in counts {
      var id :| id in DayCaptures(db, day) && db.captures[id].parseStatus == status;
      assert id in those;
    }
  }

  /** The ticks are those of the text window, and each counter counts its own. */
  lemma SummaryCountsTicks(db: DB, day: Day, start: int, end: int, now: int)
    requires SummarizeDay(db, day, start, end, now).Done?
    ensures var e := SummarizeDay(db, day, start, end, now).db;
      var window := set t | t in db.ticks && db.ticks[t].stream == day.stream
                              && InTextWindow(db.ticks[t].scheduledAt, start, end);
      && e.ticks == db.ticks - window
      && (forall id :: id in e.captures ==> e.captures[id].tickId !in window)
      && var s := e.summaries[day];
         && s.scheduledTicks == |window|
         && s.skippedTicks == |(set t | t in window && db.ticks[t].result == "skipped")|
         && s.httpFailures == |(set t | t in window && db.ticks[t].errorCategory == "http_status")|
         && s.networkFailures == |(set t | t in window
                                     && db.ticks[t].errorCategory in {"dns", "connect", "tls", "timeout", "network"})|
  {
    var window := WindowTicks(db, day.stream, start, end);
    assert (set t | t in window && NetworkCategory(db.ticks[t].errorCategory))
      == (set t | t in window && db.ticks[t].errorCategory in {"dns", "connect", "tls", "timeout", "network"});
    assert forall id :: id in db.captures && id !in DayCaptures(db, day) ==>
      !BlocksSummary(db, day, start, end, id);
  }

  lemma PendingCount(uploads: map<UploadKey, Upload>, k: Revision)
    ensures PendingRequired(uploads, k) <==>
      |set d | d in uploads && d.0 == k && uploads[d].required
        && uploads[d].status !in {Verified, RetiredByOperator}| != 0
  {
    var s := set d | d in uploads && d.0 == k && uploads[d].required
      && uploads[d].status !in {Verified, RetiredByOperator};
    if PendingRequired(uploads, k) {
      var d :| d in uploads && d.0 == k && uploads[d].required && !Settled(uploads[d].status);
      assert d in s;
    }
    assert forall d :: d in s ==> PendingRequired(uploads, k);
    assert |s| != 0 ==> exists d :: d in s;
  }

  lemma LinkedNext(db: DB, inputs: seq<Input>, n: nat)
    requires n < |inputs|
    ensures Linked(db, inputs[..n+1]) == Linked(db, inputs[..n])
      + (if inputs[n].id in db.captures then [inputs[n].id] else [])
  {
    assert inputs[..n+1][..n] == inputs[..n];
  }

  lemma LinksRepeat(k: Revision, ids: seq<string>, id: string)
    requires Distinct(ids)
    ensures (k, id) in Links(k, ids) <==> !Distinct(ids + [id])
    ensures Links(k, ids + [id]) == Links(k, ids) + {(k, id)}
  {
    if id in ids {
      var i :| 0 <= i < |ids| && ids[i] == id;
      assert (ids + [id])[i] == (ids + [id])[|ids|];
    }
  }

  /** A repeated link stays repeated when more inputs follow. */
  lemma {:induction false} LinkedGrows(db: DB, inputs: seq<Input>, n: nat)
    requires n <= |inputs| && !Distinct(Linked(db, inputs[..n]))
    ensures !Distinct(Linked(db, inputs))
    decreases |inputs|
  {
    if n == |inputs| {
      assert inputs[..n] == inputs;
    } else {
      var front := inputs[..|inputs|-1];
      assert front[..n] == inputs[..n];
      LinkedGrows(db, front, n);
      var a := Linked(db, front);
      var i, j :| 0 <= i < j < |a| && a[i] == a[j];
      assert Linked(db, inputs)[i] == Linked(db, inputs)[j];
    }
  }
}
