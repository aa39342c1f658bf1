/** The state store, whose methods run the transactions. A transaction that fails leaves every table as it was. */
module StateStore {
  import opened Prelude
  import opened Tables

  class Store {
    var ticks: map<string, Tick>
    var captures: map<string, Capture>
    var compactions: map<Revision, Compaction>
    var inputs: set<(Revision, string)>
    var uploads: map<UploadKey, Upload>
    var summaries: map<Day, Summary>

    ghost function Contents(): DB
      reads this
    {
      DB(ticks, captures, compactions, inputs, uploads, summaries)
    }

    constructor ()
      ensures Contents() == DB(map[], map[], map[], {}, map[], map[])
    {
      ticks, captures, compactions, inputs, uploads, summaries := map[], map[], map[], {}, map[], map[];
    }

    method RecordTick(id: string, t: Tick)
      modifies this`ticks
      ensures Contents() == Tables.RecordTick(old(Contents()), id, t)
      ensures ticks == old(ticks)[id := ticks[id]]
      ensures ticks[id] == if id in old(ticks)
        then Tick(old(ticks)[id].stream, old(ticks)[id].scheduledAt, t.result, t.skipReason, t.errorCategory,
                  t.httpStatus, t.attempts)
        else t
    {
      if id in ticks {
        var kept := ticks[id];
        ticks := ticks[id := t.(stream := kept.stream, scheduledAt := kept.scheduledAt)];
      } else {
        ticks := ticks[id := t];
      }
    }

    method SaveCapture(t: Tick, id: string, c: Capture) returns (ok: bool)
      modifies this
      ensures ok <==> Tables.SaveCapture(old(Contents()), t, id, c).Some?
      ensures Contents() == GetOr(Tables.SaveCapture(old(Contents()), t, id, c), old(Contents()))
      ensures !ok ==> ticks == old(ticks) && captures == old(captures)
      ensures ok ==> id !in old(captures) && captures == old(captures)[id := c] && c.tickId in ticks
      ensures ok <==> id !in old(captures) && forall o :: o in old(captures) ==>
        && old(captures)[o].tickId != c.tickId
        && (c.rawPath.Live? ==> old(captures)[o].rawPath != c.rawPath)
        && (c.sidecarPath.Live? ==> old(captures)[o].sidecarPath != c.sidecarPath)
    {
      var saved := ticks;
      RecordTick(c.tickId, t);
      var sameTick := exists o :: o in captures && captures[o].tickId == c.tickId;
      var sameRaw := exists o :: o in captures && c.rawPath.Live? && captures[o].rawPath == c.rawPath;
      var sameSidecar := exists o :: o in captures && c.sidecarPath.Live? && captures[o].sidecarPath == c.sidecarPath;
      if id in captures || sameTick || sameRaw || sameSidecar {
        ticks := saved;
        return false;
      }
      captures := captures[id := c];
      return true;
    }

    /** Inserts the inputs one by one, then the queue rows; a failing insert rolls the transaction back. */
    method SaveCompaction(k: Revision, c: Compaction, ids: seq<string>, destinations: map<string, bool>, now: int)
      returns (ok: bool)
      modifies this
      ensures ok <==> Tables.SaveCompaction(old(Contents()), k, c, ids, destinations, now).Some?
      ensures Contents() == GetOr(Tables.SaveCompaction(old(Contents()), k, c, ids, destinations, now), old(Contents()))
      ensures ok <==> && k !in old(compactions) && (forall id :: id in ids ==> id in old(captures))
                      && forall i, j :: 0 <= i < j < |ids| ==> ids[i] != ids[j]
      ensures ok ==> compactions == old(compactions)[k := c] && inputs == old(inputs) + (set id | id in ids :: (k, id))
      ensures ok ==> forall u :: u in uploads <==> u in old(uploads) || (u.0 == k && u.1 in destinations)
      ensures ok ==>
        forall u :: u in uploads ==>
          uploads[u] == if u.0 == k && u.1 in destinations then Upload(destinations[u.1], Pending, 0, now, "", "", None)
                        else old(uploads)[u]
    {
      if k in compactions {
        return false;
      }
      var links := {};
      for n := 0 to |ids|
        invariant links == Links(k, ids[..n])
        invariant Distinct(ids[..n]) && forall id :: id in ids[..n] ==> id in captures
      {
        if (k, ids[n]) in links || ids[n] !in captures {
          assert ids[n] in ids;
          return false;
        }
        assert ids[..n+1] == ids[..n] + [ids[n]];
        links := links + {(k, ids[n])};
      }
      assert ids[..|ids|] == ids;
      var queue := InsertQueue(k, destinations, now);
      compactions, inputs, uploads := compactions[k := c], inputs + links, uploads + queue;
      return true;
    }

    /** SELECT MAX(revision), plus one. */
    method NextRevision(day: Day) returns (next: int)
      ensures next == Tables.NextRevision(Contents(), day)
    {
      var max := None;
      var left := compactions.Keys;
      while left != {}
        invariant left <= compactions.Keys
        invariant max.None? ==> forall k :: k in compactions && k !in left ==> k.day != day
        invariant max.Some? ==> max.value in RevisionNumbers(Contents(), day)
        invariant max.Some? ==> forall k :: k in compactions && k !in left && k.day == day ==> k.number <= max.value
        decreases |left|
      {
        var k :| k in left;
        left := left - {k};
        if k.day == day {
          assert k in compactions && k.number in RevisionNumbers(Contents(), day);
          if max.None? || max.value < k.number {
            max := Some(k.number);
          }
        }
      }
      if max.None? {
        assert RevisionNumbers(Contents(), day) == {};
        return 1;
      }
      next := max.value + 1;
    }

    method InsertQueue(k: Revision, destinations: map<string, bool>, now: int) returns (queue: map<UploadKey, Upload>)
      ensures queue == Queue(k, destinations, now)
    {
      queue := map[];
      var left := destinations.Keys;
      while left != {}
        invariant left <= destinations.Keys
        invariant queue == map d | d in destinations && d !in left :: (k, d) := QueuedUpload(destinations[d], now)
        decreases |left|
      {
        var d :| d in left;
        queue := queue[(k, d) := QueuedUpload(destinations[d], now)];
        left := left - {d};
      }
    }

    method AdoptCompaction(k: Revision, c: Compaction, adopted: seq<Input>, excluded: set<string>,
                           destinations: map<string, bool>, now: int) returns (ok: bool)
      modifies this
      ensures ok <==> Tables.AdoptCompaction(old(Contents()), k, c, adopted, excluded, destinations, now).Some?
      ensures Contents() == GetOr(Tables.AdoptCompaction(old(Contents()), k, c, adopted, excluded, destinations, now),
        old(Contents()))
    {
      if k in compactions {
        return false;
      }
      var links;
      ok, links := LinkInputs(k, adopted, excluded);
      if !ok {
        return;
      }
      var queue := InsertQueue(k, destinations, now);
      compactions, inputs, uploads := compactions[k := c], inputs + links, uploads + queue;
    }

    /** The adopted inputs one by one: linked when present with the recorded hash, passed over when excluded and
        gone. */
    method LinkInputs(k: Revision, adopted: seq<Input>, excluded: set<string>)
      returns (ok: bool, links: set<(Revision, string)>)
      ensures ok <==> Distinct(Linked(Contents(), adopted)) && forall i :: i in adopted ==>
        Adoptable(Contents(), i, excluded)
      ensures ok ==> links == Links(k, Linked(Contents(), adopted))
    {
      links := {};
      ghost var db := Contents();
      for n := 0 to |adopted|
        invariant links == Links(k, Linked(db, adopted[..n])) && Distinct(Linked(db, adopted[..n]))
        invariant forall i :: i in adopted[..n] ==> Adoptable(db, i, excluded)
      {
        var input := adopted[n];
        LinkedNext(db, adopted, n);
        assert adopted[..n+1] == adopted[..n] + [input];
        if input.id !in captures && input.id in excluded {
          continue;
        }
        if input.id !in captures || captures[input.id].sha256 != input.sha256 {
          assert input in adopted && !Adoptable(db, input, excluded);
          return false, links;
        }
        LinksRepeat(k, Linked(db, adopted[..n]), input.id);
        if (k, input.id) in links {
          LinkedGrows(db, adopted, n + 1);
          return false, links;
        }
        links := links + {(k, input.id)};
      }
      assert adopted[..|adopted|] == adopted;
      ok := true;
    }

    method MarkUploadAttempt(u: UploadKey, remote: string, next: int)
      modifies this`uploads
      ensures Contents() == Tables.MarkUploadAttempt(old(Contents()), u, remote, next)
      ensures u in old(uploads) ==> uploads == old(uploads)[u := uploads[u]]
      ensures u in old(uploads) ==> var row := old(uploads)[u];
        uploads[u] == Upload(row.required, Uploading, row.attempts + 1, next, "", remote, row.completedAt)
    {
      if u in uploads {
        uploads := uploads[u := uploads[u].(status := Uploading, attempts := uploads[u].attempts + 1, lastError := "",
                                            remotePath := remote, nextAttemptAt := next)];
      }
    }

    method MarkUploadFailed(u: UploadKey, status: Status, detail: string, next: int)
      modifies this`uploads
      ensures Contents() == Tables.MarkUploadFailed(old(Contents()), u, status, detail, next)
      ensures u in old(uploads) ==> uploads == old(uploads)[u := uploads[u]]
      ensures u in old(uploads) ==> var row := old(uploads)[u];
        uploads[u] == Upload(row.required, status, row.attempts, next, detail, row.remotePath, row.completedAt)
    {
      if u in uploads {
        uploads := uploads[u := uploads[u].(status := status, lastError := detail, nextAttemptAt := next)];
      }
    }

    method MarkUploadVerified(u: UploadKey, remote: string, now: int) returns (ok: bool)
      modifies this
      ensures ok <==> u in old(uploads)
      ensures Contents() == GetOr(Tables.MarkUploadVerified(old(Contents()), u, remote, now), old(Contents()))
      ensures ok ==> uploads == old(uploads)[u := uploads[u]] && var row := old(uploads)[u];
        uploads[u] == Upload(row.required, Verified, row.attempts, row.nextAttemptAt, "", remote, Some(now))
      ensures ok ==>
        var all := forall d :: d in uploads && d.0 == u.0 && uploads[d].required ==>
          uploads[d].status == Verified || uploads[d].status == RetiredByOperator;
        compactions == if u.0 in old(compactions) && all
          then old(compactions)[u.0 := old(compactions)[u.0].(status := "published", publishedAt := Some(now))]
          else old(compactions)
    {
      if u !in uploads {
        return false;
      }
      uploads := uploads[u := uploads[u].(status := Verified, lastError := "", remotePath := remote,
        completedAt := Some(now))];
      var pending := |set d | d in uploads && d.0 == u.0 && uploads[d].required
        && uploads[d].status !in {Verified, RetiredByOperator}|;
      if pending == 0 && u.0 in compactions {
        compactions := compactions[u.0 := compactions[u.0].(status := "published", publishedAt := Some(now))];
      }
      assert PendingRequired(uploads, u.0) <==> pending != 0 by {
        PendingCount(uploads, u.0);
      }
      return true;
    }

    method EnsureDestinationBackfill(destination: string, now: int) returns (queued: nat)
      modifies this`uploads
      ensures Contents() == Tables.EnsureDestinationBackfill(old(Contents()), destination, now)
      ensures queued == |BackfillKeys(old(Contents()), destination)|
      ensures forall u :: u in uploads <==>
        u in old(uploads) || (u.1 == destination && u.0 in compactions && compactions[u.0].manifestPath != "")
      ensures forall u :: u in uploads ==>
        uploads[u] == if u in old(uploads) then old(uploads)[u] else Upload(false, Pending, 0, now, "", "", None)
    {
      var fresh_ := set k | k in compactions && compactions[k].manifestPath != "" && (k, destination) !in uploads ::
        (k, destination);
      assert fresh_ == BackfillKeys(Contents(), destination);
      queued := |fresh_|;
      uploads := uploads + map u | u in fresh_ :: Upload(false, Pending, 0, now, "", "", None);
    }

    method RetireDestination(destination: string, reason: string, now: int) returns (count: nat)
      modifies this
      ensures Contents() == Tables.RetireDestination(old(Contents()), destination, reason, now)
      ensures count == |set u | u in old(uploads) && Retirable(u, old(uploads)[u], destination)|
    {
      count := |set u | u in uploads && Retirable(u, uploads[u], destination)|;
      uploads := map u | u in uploads :: if u.1 == destination && uploads[u].required
        && uploads[u].status !in {Verified, RetiredByOperator}
        then uploads[u].(status := RetiredByOperator, lastError := "retired: " + reason, completedAt := Some(now),
          nextAttemptAt := now)
        else uploads[u];
      assert uploads == RetireUploads(old(uploads), destination, reason, now);
      compactions := map k | k in compactions :: if Releasable(uploads, k, compactions[k], destination)
        then compactions[k].(status := "published", publishedAt := Some(now)) else compactions[k];
    }

    method MarkCaptureRetained(id: string)
      modifies this`captures
      ensures Contents() == Tables.MarkCaptureRetained(old(Contents()), id)
      ensures captures.Keys == old(captures).Keys && forall o :: o in captures ==>
        captures[o]
        == if o == id then old(captures)[o].(rawPath := Retained, sidecarPath := Retained) else old(captures)[o]
    {
      if id in captures {
        captures := captures[id := captures[id].(rawPath := Retained, sidecarPath := Retained)];
      }
    }

    method MarkParquetRetained(k: Revision)
      modifies this
      ensures Contents() == Tables.MarkParquetRetained(old(Contents()), k)
      ensures compactions.Keys == old(compactions).Keys && forall j :: j in compactions ==>
        var row := old(compactions)[j];
        compactions[j] == if j == k then row.(dataPath := "", manifestPath := "", dataBytes := 0) else row
      ensures uploads.Keys == old(uploads).Keys && forall u :: u in uploads ==> var row := old(uploads)[u];
        uploads[u] == if u.0 == k && !row.required && row.status != Verified
          then row.(status := Expired, lastError := "local_retention_elapsed") else row
    {
      uploads := map u | u in uploads :: if u.0 == k && !uploads[u].required && uploads[u].status != Verified
        then uploads[u].(status := Expired, lastError := "local_retention_elapsed") else uploads[u];
      if k in compactions {
        compactions := compactions[k := compactions[k].(dataPath := "", manifestPath := "", dataBytes := 0)];
      }
    }

    /** Counts, writes the summary, then deletes inputs, captures and ticks; a foreign key still held by a
        remaining capture rolls everything back. */
    method SummarizeDay(day: Day, start: int, end: int, now: int) returns (done: bool, ok: bool)
      modifies this
      ensures var r := Tables.SummarizeDay(old(Contents()), day, start, end, now);
        && done == r.Done? && ok == !r.Failed?
        && Contents() == (if r.Done? then r.db else old(Contents()))
    {
      if (set id | id in captures && captures[id].day == day && captures[id].rawPath.Live?) != {} {
        return false, true;
      }
      var ids := DayCaptures(DB(ticks, captures, compactions, inputs, uploads, summaries), day);
      var window := WindowTicks(DB(ticks, captures, compactions, inputs, uploads, summaries), day.stream, start, end);
      var summary := Summarised(DB(ticks, captures, compactions, inputs, uploads, summaries), day, start, end, now);
      var remaining := captures - ids;
      if day in summaries {
        return false, false;
      }
      if exists id :: id in remaining && remaining[id].tickId in window {
        assert exists id :: id in captures && BlocksSummary(Contents(), day, start, end, id);
        return false, false;
      }
      assert forall id :: id in captures && BlocksSummary(Contents(), day, start, end, id) ==> id in remaining;
      summaries := summaries[day := summary];
      inputs := set i | i in inputs && i.1 !in ids;
      captures := remaining;
      ticks := ticks - window;
      return true, true;
    }
  }
}
