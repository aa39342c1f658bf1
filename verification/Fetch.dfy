/** One scheduled fetch: attempts with retries, then the raw commit and the transaction that records it. */
module Fetch {
  import opened Prelude
  import opened Tables
  import StateLaws
  import StateStore

  /** What one attempt met: no response, a response outside 2xx, or one whose body went through captureResponse. */
  datatype Reply = NoResponse(category: string) | Refused(status: int) | Answered(status: int, body: Body)

  datatype Body = TooLarge | StorageFailed | Committed(id: string, c: Capture)

  const CANCELLED: string := "cancelled"
  const RUNNING: string := "running"

  predicate RetryableStatus(status: int) {
    status == 408 || status == 425 || status == 429 || status >= 500
  }

  /** An attempt that is repeated when one is left. */
  predicate Retryable(r: Reply) {
    match r
    case NoResponse(category) => category != CANCELLED
    case Refused(status) => RetryableStatus(status)
    case Answered(_, _) => false
  }

  /** How a fetch ends when attempt `n` is its last. */
  function Verdict(r: Reply, t: Tick): Tick {
    match r
    case NoResponse(category) => WithFailure(t, category, 0)
    case Refused(status) => WithFailure(t, "http_status", status)
    case Answered(status, TooLarge) => WithFailure(t, "body_too_large", status)
    case Answered(status, StorageFailed) => WithFailure(t, "local_storage", status)
    case Answered(status, Committed(_, c)) =>
      t.(httpStatus := status,
         result := if c.parseStatus != "valid" || !c.transportComplete then "captured_invalid" else "captured")
  }

  function WithFailure(t: Tick, category: string, status: int): Tick {
    t.(result := if category == CANCELLED then "cancelled"
      else "failed", errorCategory := category, httpStatus := status)
  }

  /** A fetch makes exactly `n` attempts: all before the last were retryable and waited out, and the last was not
      retryable, or none was left, or its wait was interrupted. */
  predicate StopsAt(replies: nat -> Reply, interrupted: nat -> bool, attempts: nat, n: nat) {
    && 1 <= n <= attempts
    && (forall i :: 1 <= i < n ==> Retryable(replies(i)) && !interrupted(i))
    && (n == attempts || !Retryable(replies(n)) || interrupted(n))
  }

  /** The tick row a finished fetch leaves. */
  function FinalTick(t: Tick, r: Reply, waitCut: bool, n: nat): Tick {
    var ran := t.(attempts := n);
    if waitCut then WithFailure(ran, CANCELLED, if r.Refused? then r.status else 0) else Verdict(r, ran)
  }

  /** The tables after the first record, and after the last. */
  function Started(db: DB, id: string, t: Tick): DB {
    RecordTick(db, id, t.(result := RUNNING))
  }

  /** Which of a fetch's two writes to the tables fail: the running row, and the last write. */
  datatype Faults = Faults(first: bool, last: bool)

  predicate IsCaptured(r: Reply, waitCut: bool) {
    !waitCut && r.Answered? && r.body.Committed?
  }

  /** The last write: finishFailure's RecordTick, or SaveCapture for a committed response. */
  function Ended(db: DB, id: string, t: Tick, r: Reply, waitCut: bool, n: nat, fails: bool): DB {
    var final := FinalTick(t.(result := RUNNING), r, waitCut, n);
    if fails then db
    else if IsCaptured(r, waitCut) then GetOr(SaveCapture(db, final, r.body.id, r.body.c), db)
    else RecordTick(db, id, final)
  }

  /** The last write did not reach the tables: it failed, or the transaction met a row in its way. */
  predicate LastWriteLost(db: DB, r: Reply, waitCut: bool, fails: bool) {
    fails || (IsCaptured(r, waitCut) && CaptureConflict(db, r.body.id, r.body.c))
  }

  class Fetcher {
    const store: StateStore.Store
    /** Captures whose files the raw store committed, whether or not their row was saved. */
    var committed: set<string>

    constructor (store: StateStore.Store)
      ensures this.store == store && committed == {}
    {
      this.store, committed := store, {};
    }

    /** Fetch. No row when the first write fails; else exactly one row for its tick, final unless the last write is
        lost: then the row still says running, and files that were committed are left for recovery to register. Only a
        missing response that is no cancellation, the statuses 408, 425 and 429, and server errors are tried again; and
        a committed response is captured when it is a valid feed that arrived whole, else captured_invalid. */
    method Fetch(id: string, t: Tick, attempts: nat, replies: nat -> Reply, interrupted: nat -> bool, faults: Faults)
      returns (n: nat, saved: bool)
      requires attempts >= 1
      requires forall i :: replies(i).Answered? && replies(i).body.Committed? ==> replies(i).body.c.tickId == id
      modifies this, store
      ensures faults.first ==>
        n == 0 && !saved && store.Contents() == old(store.Contents()) && committed == old(committed)
      ensures !faults.first ==> StopsAt(replies, interrupted, attempts, n)
      ensures !faults.first ==>
        var db, waitCut := old(store.Contents()), n < attempts && Retryable(replies(n));
        var captured := IsCaptured(replies(n), waitCut);
        && store.Contents() == Ended(Started(db, id, t), id, t, replies(n), waitCut, n, faults.last)
        && committed == (if captured then old(committed) + {replies(n).body.id} else old(committed))
        && (saved <==> captured && !LastWriteLost(db, replies(n), waitCut, faults.last))
      ensures !faults.first ==> forall i :: 1 <= i < n ==>
        && !interrupted(i)
        && (replies(i).NoResponse? ==> replies(i).category != "cancelled")
        && (replies(i).Refused? ==> replies(i).status in {408, 425, 429} || replies(i).status >= 500)
        && !replies(i).Answered?
      ensures !faults.first && n < attempts && !interrupted(n) ==>
        && (replies(n).NoResponse? ==> replies(n).category == "cancelled")
        && (replies(n).Refused? ==> replies(n).status !in {408, 425, 429} && replies(n).status < 500)
      ensures !faults.first && !faults.last && replies(n).NoResponse? ==>
        && id in store.ticks && store.ticks[id].attempts == n && store.ticks[id].httpStatus == 0
        && var cut := replies(n).category == "cancelled" || (n < attempts && interrupted(n));
           && store.ticks[id].result == (if cut then "cancelled" else "failed")
           && store.ticks[id].errorCategory == (if cut then "cancelled" else replies(n).category)
      ensures !faults.first && !faults.last && replies(n).Refused? ==>
        && id in store.ticks && store.ticks[id].attempts == n && store.ticks[id].httpStatus == replies(n).status
        && var cut := n < attempts && interrupted(n)
             && (replies(n).status in {408, 425, 429} || replies(n).status >= 500);
           && store.ticks[id].result == (if cut then "cancelled" else "failed")
           && store.ticks[id].errorCategory == (if cut then "cancelled" else "http_status")
      ensures !faults.first && !faults.last && replies(n).Answered? && !replies(n).body.Committed? ==>
        && id in store.ticks && store.ticks[id].attempts == n && store.ticks[id].httpStatus == replies(n).status
        && store.ticks[id].result == "failed"
        && store.ticks[id].errorCategory == (if replies(n).body.TooLarge? then "body_too_large" else "local_storage")
      ensures saved ==>
        && replies(n).Answered? && replies(n).body.Committed? && id in store.ticks
        && replies(n).body.id in store.captures && store.captures[replies(n).body.id] == replies(n).body.c
        && store.ticks[id].attempts == n && store.ticks[id].httpStatus == replies(n).status
        && store.ticks[id].result == (if replies(n).body.c.parseStatus == "valid" && replies(n).body.c.transportComplete
                                      then "captured" else "captured_invalid")
    {
      n, saved := 0, false;
      if faults.first {
        return;
      }
      store.RecordTick(id, t.(result := RUNNING));
      ghost var started := store.Contents();
      n := 1;
      var tick := t.(result := RUNNING);
      while n < attempts && Retryable(replies(n)) && !interrupted(n)
        invariant 1 <= n <= attempts
        invariant forall i :: 1 <= i < n ==> Retryable(replies(i)) && !interrupted(i)
        invariant store.Contents() == started && committed == old(committed)
      {
        n := n + 1;
      }
      tick := tick.(attempts := n);
      var reply := replies(n);
      if n < attempts && Retryable(reply) {
        FinishFailure(id, tick, CANCELLED, if reply.Refused? then reply.status else 0, faults.last);
        return;
      }
      match reply
      case NoResponse(category) => FinishFailure(id, tick, category, 0, faults.last);
      case Refused(status) => FinishFailure(id, tick, "http_status", status, faults.last);
      case Answered(status, TooLarge) => FinishFailure(id, tick, "body_too_large", status, faults.last);
      case Answered(status, StorageFailed) => FinishFailure(id, tick, "local_storage", status, faults.last);
      case Answered(status, Committed(capture, c)) =>
        committed := committed + {capture};
        var result := "captured";
        if c.parseStatus != "valid" || !c.transportComplete {
          result := "captured_invalid";
        }
        if !faults.last {
          saved := store.SaveCapture(tick.(httpStatus := status, result := result), capture, c);
        }
    }

    method FinishFailure(id: string, tick: Tick, category: string, status: int, fails: bool)
      modifies store
      ensures store.Contents()
        == if fails then old(store.Contents())
           else RecordTick(old(store.Contents()), id, WithFailure(tick, category, status))
    {
      var result := "failed";
      if category == CANCELLED {
        result := "cancelled";
      }
      if !fails {
        store.RecordTick(id, tick.(result := result, errorCategory := category, httpStatus := status));
      }
    }
  }

  /** A fetch decides on one number of attempts. */
  lemma OneStop(replies: nat -> Reply, interrupted: nat -> bool, attempts: nat, m: nat, n: nat)
    requires StopsAt(replies, interrupted, attempts, m) && StopsAt(replies, interrupted, attempts, n)
    ensures m == n
  {
    assert !(m < n && Retryable(replies(m)) && !interrupted(m));
    assert !(n < m && Retryable(replies(n)) && !interrupted(n));
  }

  lemma NotRunning(t: Tick, r: Reply, waitCut: bool, n: nat)
    ensures var f := FinalTick(t, r, waitCut, n);
      f.result != RUNNING && f.attempts == n && f.stream == t.stream && f.scheduledAt == t.scheduledAt
  {
    assert RUNNING[0] == 'r' && "failed"[0] == 'f' && "cancelled"[0] == 'c';
    assert "captured"[0] == 'c' && "captured_invalid"[0] == 'c';
  }

  lemma SavedTick(db: DB, id: string, f: Tick, capture: string, c: Capture)
    requires id in db.ticks && c.tickId == id && f.stream == db.ticks[id].stream
      && f.scheduledAt == db.ticks[id].scheduledAt
    ensures var e := GetOr(SaveCapture(db, f, capture, c), db);
      e.ticks == if CaptureConflict(db, capture, c) then db.ticks else db.ticks[id := f]
  {
  }

  lemma EndedTicks(db: DB, id: string, t: Tick, r: Reply, waitCut: bool, n: nat, fails: bool)
    requires id !in db.ticks
    requires r.Answered? && r.body.Committed? ==> r.body.c.tickId == id
    ensures var running, final := t.(result := RUNNING), FinalTick(t.(result := RUNNING), r, waitCut, n);
      Ended(Started(db, id, t), id, t, r, waitCut, n, fails).ticks
        == db.ticks[id := if LastWriteLost(db, r, waitCut, fails) then running else final]
  {
    var d := Started(db, id, t);
    var running := t.(result := RUNNING);
    assert d.ticks == db.ticks[id := running];
    NotRunning(running, r, waitCut, n);
    if IsCaptured(r, waitCut) && !fails {
      assert CaptureConflict(d, r.body.id, r.body.c) <==> CaptureConflict(db, r.body.id, r.body.c);
      SavedTick(d, id, FinalTick(running, r, waitCut, n), r.body.id, r.body.c);
    }
  }

  /** Every fetch that got its first write through leaves exactly one new tick row, carrying its number of attempts, and
      the row still says running exactly when the last write was lost. */
  lemma TickRowIsFinal(db: DB, id: string, t: Tick, r: Reply, waitCut: bool, n: nat, fails: bool)
    requires id !in db.ticks
    requires r.Answered? && r.body.Committed? ==> r.body.c.tickId == id
    ensures var e := Ended(Started(db, id, t), id, t, r, waitCut, n, fails);
      var lost := LastWriteLost(db, r, waitCut, fails);
      && e.ticks.Keys == db.ticks.Keys + {id}
      && (e.ticks[id].result == RUNNING <==> lost)
      && (!lost ==> e.ticks[id].attempts == n)
      && (forall o :: o in db.ticks ==> e.ticks[o] == db.ticks[o])
      && e.ticks[id].stream == t.stream && e.ticks[id].scheduledAt == t.scheduledAt
  {
    NotRunning(t.(result := RUNNING), r, waitCut, n);
    EndedTicks(db, id, t, r, waitCut, n, fails);
  }

  /** Freshly generated IDs and paths: no row can be in the way. */
  predicate FreshCapture(db: DB, id: string, c: Capture) {
    && id !in db.captures && c.rawPath.Live? && c.sidecarPath.Live?
    && forall o :: o in db.captures ==>
        && db.captures[o].tickId != c.tickId && db.captures[o].rawPath != c.rawPath
        && db.captures[o].sidecarPath != c.sidecarPath
  }

  /** The tick row recovery writes with a sidecar's capture. */
  function RecoveredTick(c: Capture, status: int, attempts: int): Tick {
    Tick(c.day.stream, c.scheduledAt, "captured", "", "", status, attempts)
  }

  /** A committed capture whose transaction was lost: registering it from its sidecar succeeds and ends the row. */
  lemma RecoveryEndsRow(db: DB, id: string, t: Tick, r: Reply, n: nat, status: int, attempts: int)
    requires id !in db.ticks && IsCaptured(r, false) && r.body.c.tickId == id
    requires FreshCapture(db, r.body.id, r.body.c)
    ensures var e := Ended(Started(db, id, t), id, t, r, false, n, true);
      var f := SaveCapture(e, RecoveredTick(r.body.c, status, attempts), r.body.id, r.body.c);
      && id in e.ticks && e.ticks[id].result == RUNNING
      && f.Some? && r.body.id in f.value.captures && id in f.value.ticks && f.value.ticks[id].result == "captured"
  {
    TickRowIsFinal(db, id, t, r, false, n, true);
  }

  /** The transactions that write the tick row `id`. */
  predicate Writes(t: StateLaws.Transaction, id: string) {
    (t.TickRecorded? && t.id == id) || (t.CaptureSaved? && t.capture.tickId == id)
  }

  lemma RowUnwritten(db: DB, t: StateLaws.Transaction, id: string)
    requires id in db.ticks && !Writes(t, id)
    ensures id in StateLaws.Apply(db, t).ticks ==> StateLaws.Apply(db, t).ticks[id] == db.ticks[id]
    ensures !t.DaySummarised? ==> id in StateLaws.Apply(db, t).ticks
  {
  }

  lemma RowStaysAway(db: DB, t: StateLaws.Transaction, id: string)
    requires id !in db.ticks && !Writes(t, id)
    ensures id !in StateLaws.Apply(db, t).ticks
  {
  }

  /** When finishFailure's write was lost nothing ends the row: whatever transactions follow, other than those that
      write this very tick (recovery's, should it complete a commit that failed half way), it stays until a summary
      deletes it. */
  lemma {:induction false} NothingEndsRow(db: DB, ts: seq<StateLaws.Transaction>, id: string)
    requires id in db.ticks && forall t :: t in ts ==> !Writes(t, id)
    ensures id in StateLaws.Run(db, ts).ticks ==> StateLaws.Run(db, ts).ticks[id] == db.ticks[id]
    ensures (forall t :: t in ts ==> !t.DaySummarised?) ==> id in StateLaws.Run(db, ts).ticks
  {
    if |ts| > 0 {
      var front, last := ts[..|ts|-1], ts[|ts|-1];
      NothingEndsRow(db, front, id);
      if id in StateLaws.Run(db, front).ticks {
        RowUnwritten(StateLaws.Run(db, front), last, id);
      } else {
        RowStaysAway(StateLaws.Run(db, front), last, id);
      }
    }
  }

  /** A concrete fetch whose response was committed and whose transaction failed: its tick row stays running. */
  lemma RunningRowExample()
    ensures var s := Stream("a", "b");
      var t := Tick(s, 0, "", "", "", 0, 0);
      var c := Capture("t", Day(s, "1970-01-01"), 0, "h", 1, Live("r"), Live("s"), "valid", true);
      var db := StateLaws.EMPTY;
      var e := Ended(Started(db, "t", t), "t", t, Answered(200, Committed("c", c)), false, 1, true);
      FreshCapture(db, "c", c) && "t" in e.ticks && e.ticks["t"].result == RUNNING
  {
    var s := Stream("a", "b");
    var t := Tick(s, 0, "", "", "", 0, 0);
    var c := Capture("t", Day(s, "1970-01-01"), 0, "h", 1, Live("r"), Live("s"), "valid", true);
    TickRowIsFinal(StateLaws.EMPTY, "t", t, Answered(200, Committed("c", c)), false, 1, true);
  }
}
