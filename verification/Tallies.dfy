/** The aggregates of a revision's manifest, accumulated over its captures. */
module Tallies {
  import opened Prelude
  import opened Artifact

  datatype Tally = Tally(valid: nat, invalid: nat, parseCounts: map<string, nat>, flagCounts: map<string, nat>,
                         earliestFeed: Option<nat>, latestFeed: Option<nat>,
                         earliestCapture: Option<int>, latestCapture: Option<int>, largestGap: int)

  const NOTHING := Tally(0, 0, map[], map[], None, None, None, None, 0)

  predicate Snapshot(c: Capture) {
    c.parseStatus == "valid" && c.transportComplete
  }

  function CountOf(counts: map<string, nat>, k: string): nat {
    if k in counts then counts[k] else 0
  }

  function Bump(counts: map<string, nat>, k: string): map<string, nat> {
    counts[k := CountOf(counts, k) + 1]
  }

  /** A Go duration in whole milliseconds, truncated toward zero. */
  function Milliseconds(d: int): int {
    if d >= 0 then d / 1_000_000 else -(-d / 1_000_000)
  }

  // ---- what the aggregates mean ----

  function StatusCount(captures: seq<Capture>, status: string): nat {
    if |captures| == 0 then 0
    else StatusCount(captures[..|captures|-1], status) + (if captures[|captures|-1].parseStatus == status then 1 else 0)
  }

  function SnapshotCount(captures: seq<Capture>): nat {
    if |captures| == 0 then 0
    else SnapshotCount(captures[..|captures|-1]) + (if Snapshot(captures[|captures|-1]) then 1 else 0)
  }

  function FlagCount(captures: seq<Capture>, flag: string): nat {
    if |captures| == 0 then 0
    else FlagCount(captures[..|captures|-1], flag) + multiset(captures[|captures|-1].flags)[flag]
  }

  ghost predicate Counted(t: Tally, captures: seq<Capture>) {
    && t.valid == SnapshotCount(captures) && t.valid + t.invalid == |captures| == CountTotal(t.parseCounts)
    && (forall s :: CountOf(t.parseCounts, s) == StatusCount(captures, s))
    && (forall f :: CountOf(t.flagCounts, f) == FlagCount(captures, f))
  }

  predicate Stamps(c: Capture, stamp: nat) {
    Snapshot(c) && c.feedTimestamp == Some(stamp)
  }

  /** `best` is the extreme feed timestamp of the valid snapshots, `below` telling which extreme. */
  ghost predicate Extreme(best: Option<nat>, captures: seq<Capture>, below: (nat, nat) -> bool) {
    && (best.Some? ==> exists c :: c in captures && Stamps(c, best.value))
    && (forall c, s :: c in captures && Stamps(c, s) ==> best.Some? && !below(s, best.value))
  }

  ghost predicate Stamped(t: Tally, captures: seq<Capture>) {
    && Extreme(t.earliestFeed, captures, (a, b) => a < b)
    && Extreme(t.latestFeed, captures, (a, b) => a > b)
  }

  function Gap(captures: seq<Capture>, i: nat): int
    requires 0 < i < |captures|
  {
    Milliseconds(captures[i].completedAt - captures[i-1].completedAt)
  }

  predicate Spaced(t: Tally, captures: seq<Capture>) {
    && (if |captures| == 0 then t.earliestCapture == None && t.latestCapture == None
        else
          && t.earliestCapture == Some(captures[0].completedAt)
          && t.latestCapture == Some(captures[|captures|-1].completedAt))
    && t.largestGap >= 0
    && (t.largestGap > 0 ==> exists i :: 0 < i < |captures| && Gap(captures, i) == t.largestGap)
    && (forall i :: 0 < i < |captures| ==> Gap(captures, i) <= t.largestGap)
  }

  // ---- the loop ----

  lemma BumpTotal(counts: map<string, nat>, k: string)
    ensures CountTotal(Bump(counts, k)) == CountTotal(counts) + 1
  {
    var more := Bump(counts, k);
    var others := counts.Keys - {k};
    SumRemove(more.Keys, Counter(more), k);
    assert more.Keys - {k} == others;
    SumSame(others, Counter(counts), Counter(more));
    if k in counts {
      SumRemove(counts.Keys, Counter(counts), k);
      assert CountTotal(counts) == counts[k] + Sum(others, Counter(counts));
    } else {
      assert counts.Keys == others;
    }
    assert CountTotal(more) == more[k] + Sum(others, Counter(more));
  }

  method BumpAll(counts: map<string, nat>, flags: seq<string>) returns (bumped: map<string, nat>)
    ensures forall f :: CountOf(bumped, f) == CountOf(counts, f) + multiset(flags)[f]
  {
    bumped := counts;
    for i := 0 to |flags|
      invariant forall f :: CountOf(bumped, f) == CountOf(counts, f) + multiset(flags[..i])[f]
    {
      assert flags[..i+1] == flags[..i] + [flags[i]];
      bumped := Bump(bumped, flags[i]);
    }
    assert flags[..|flags|] == flags;
  }

  method CountCapture(before: Tally, captures: seq<Capture>, n: nat) returns (t: Tally)
    requires n < |captures| && Counted(before, captures[..n])
    ensures Counted(t, captures[..n+1])
    ensures t == before.(valid := t.valid, invalid := t.invalid, parseCounts := t.parseCounts,
      flagCounts := t.flagCounts)
  {
    var c := captures[n];
    assert captures[..n+1][..n] == captures[..n];
    BumpTotal(before.parseCounts, c.parseStatus);
    t := before.(parseCounts := Bump(before.parseCounts, c.parseStatus));
    if Snapshot(c) {
      t := t.(valid := t.valid + 1);
    } else {
      t := t.(invalid := t.invalid + 1);
    }
    var flags := BumpAll(t.flagCounts, c.flags);
    t := t.(flagCounts := flags);
    forall s ensures CountOf(t.parseCounts, s) == StatusCount(captures[..n+1], s) {
      assert StatusCount(captures[..n+1], s) == StatusCount(captures[..n], s) + (if c.parseStatus == s then 1 else 0);
    }
    forall f ensures CountOf(t.flagCounts, f) == FlagCount(captures[..n+1], f) {
      assert FlagCount(captures[..n+1], f) == FlagCount(captures[..n], f) + multiset(c.flags)[f];
    }
  }

  method StampCapture(before: Tally, captures: seq<Capture>, n: nat) returns (t: Tally)
    requires n < |captures| && Stamped(before, captures[..n])
    ensures Stamped(t, captures[..n+1])
    ensures t == before.(earliestFeed := t.earliestFeed, latestFeed := t.latestFeed)
  {
    var c := captures[n];
    assert captures[..n+1] == captures[..n] + [c];
    assert c in captures[..n+1];
    t := before;
    if Snapshot(c) && c.feedTimestamp.Some? {
      var stamp := c.feedTimestamp.value;
      assert Stamps(c, stamp);
      if t.earliestFeed.None? || stamp < t.earliestFeed.value {
        t := t.(earliestFeed := Some(stamp));
      }
      if t.latestFeed.None? || stamp > t.latestFeed.value {
        t := t.(latestFeed := Some(stamp));
      }
    }
  }

  method SpaceCapture(before: Tally, captures: seq<Capture>, n: nat) returns (t: Tally)
    requires n < |captures| && Spaced(before, captures[..n])
    ensures Spaced(t, captures[..n+1])
    ensures t == before.(earliestCapture := t.earliestCapture, latestCapture := t.latestCapture,
      largestGap := t.largestGap)
  {
    ghost var old_, new_ := captures[..n], captures[..n+1];
    assert forall i :: 0 < i < n ==> Gap(new_, i) == Gap(old_, i);
    var observed := captures[n].completedAt;
    t := before;
    if t.earliestCapture.None? {
      t := t.(earliestCapture := Some(observed));
    }
    if t.latestCapture.Some? {
      var gap := Milliseconds(observed - t.latestCapture.value);
      assert gap == Gap(new_, n);
      if gap > t.largestGap {
        t := t.(largestGap := gap);
      }
    }
    t := t.(latestCapture := Some(observed));
  }

  ghost function SnapshotIndices(captures: seq<Capture>): set<nat> {
    set i | 0 <= i < |captures| && captures[i].parseStatus == "valid" && captures[i].transportComplete
  }

  lemma IndicesStep(captures: seq<Capture>, n: nat)
    requires |captures| == n + 1
    ensures n !in SnapshotIndices(captures[..n])
    ensures SnapshotIndices(captures)
      == SnapshotIndices(captures[..n]) + if Snapshot(captures[n]) then {n} else {}
  {
    var all, part := SnapshotIndices(captures), SnapshotIndices(captures[..n]);
    forall i: nat ensures i in all <==> i in part || (i == n && Snapshot(captures[n])) {
      if i < n { assert captures[..n][i] == captures[i]; }
    }
  }

  lemma {:induction false} SnapshotsAre(captures: seq<Capture>)
    ensures SnapshotCount(captures) == |SnapshotIndices(captures)|
  {
    if |captures| > 0 {
      var n := |captures| - 1;
      SnapshotsAre(captures[..n]);
      IndicesStep(captures, n);
    }
  }

  /** Valid are the captures that parsed and arrived whole. */
  lemma ValidAre(t: Tally, captures: seq<Capture>)
    requires Counted(t, captures)
    ensures t.valid == |SnapshotIndices(captures)|
  {
    SnapshotsAre(captures);
  }

  function StatusesOf(captures: seq<Capture>): seq<string> {
    seq(|captures|, i requires 0 <= i < |captures| => captures[i].parseStatus)
  }

  function FlagsOf(captures: seq<Capture>): seq<seq<string>> {
    seq(|captures|, i requires 0 <= i < |captures| => captures[i].flags)
  }

  lemma {:induction false} StatusOccurs(captures: seq<Capture>, status: string)
    ensures StatusCount(captures, status) == multiset(StatusesOf(captures))[status]
  {
    if |captures| > 0 {
      var front, last := captures[..|captures|-1], captures[|captures|-1];
      StatusOccurs(front, status);
      assert StatusesOf(captures) == StatusesOf(front) + [last.parseStatus];
    }
  }

  lemma {:induction false} FlagOccurs(captures: seq<Capture>, flag: string)
    ensures FlagCount(captures, flag) == multiset(Joined(FlagsOf(captures)))[flag]
  {
    if |captures| > 0 {
      var front, last := captures[..|captures|-1], captures[|captures|-1];
      FlagOccurs(front, flag);
      FlagsStep(captures);
      assert FlagCount(captures, flag) == FlagCount(front, flag) + multiset(last.flags)[flag];
    }
  }

  lemma FlagsStep(captures: seq<Capture>)
    requires |captures| > 0
    ensures Joined(FlagsOf(captures)) == Joined(FlagsOf(captures[..|captures|-1])) + captures[|captures|-1].flags
  {
    assert FlagsOf(captures)[..|captures|-1] == FlagsOf(captures[..|captures|-1]);
  }

  /** Each parse status and each flag is counted as often as it occurs; one that is not listed does not occur. */
  lemma CountsAre(t: Tally, captures: seq<Capture>, label_: string)
    requires Counted(t, captures)
    ensures multiset(StatusesOf(captures))[label_] == if label_ in t.parseCounts then t.parseCounts[label_] else 0
    ensures multiset(Joined(FlagsOf(captures)))[label_] == if label_ in t.flagCounts then t.flagCounts[label_] else 0
  {
    StatusOccurs(captures, label_);
    FlagOccurs(captures, label_);
    assert CountOf(t.parseCounts, label_) == StatusCount(captures, label_);
    assert CountOf(t.flagCounts, label_) == FlagCount(captures, label_);
  }

  /** The feed timestamps reach over exactly those of the valid captures. */
  lemma StampsReach(t: Tally, captures: seq<Capture>, c: Capture)
    requires Stamped(t, captures)
    ensures c in captures && c.parseStatus == "valid" && c.transportComplete && c.feedTimestamp.Some? ==>
      && t.earliestFeed.Some? && t.earliestFeed.value <= c.feedTimestamp.value
      && t.latestFeed.Some? && c.feedTimestamp.value <= t.latestFeed.value
    ensures t.earliestFeed.Some? ==> (exists d :: d in captures && StampedAs(d, t.earliestFeed.value))
    ensures t.latestFeed.Some? ==> (exists d :: d in captures && StampedAs(d, t.latestFeed.value))
  {
    if c in captures && c.parseStatus == "valid" && c.transportComplete && c.feedTimestamp.Some? {
      assert Stamps(c, c.feedTimestamp.value);
    }
    assert forall d, s :: Stamps(d, s) ==> StampedAs(d, s);
  }

  predicate StampedAs(c: Capture, stamp: nat) {
    c.parseStatus == "valid" && c.transportComplete && c.feedTimestamp == Some(stamp)
  }

  /** The largest gap, in whole milliseconds, is the longest time from one capture to the next. */
  lemma GapIsLongest(t: Tally, captures: seq<Capture>, i: nat)
    requires Spaced(t, captures) && 0 < i < |captures| && captures[i-1].completedAt <= captures[i].completedAt
    ensures (captures[i].completedAt - captures[i-1].completedAt) / 1_000_000 <= t.largestGap
    ensures t.largestGap > 0 ==> (exists j :: 0 < j < |captures| && GapOf(captures, j) == Some(t.largestGap))
  {
    assert Gap(captures, i) <= t.largestGap;
    if t.largestGap > 0 {
      var j :| 0 < j < |captures| && Gap(captures, j) == t.largestGap;
      assert GapOf(captures, j) == Some(t.largestGap);
    }
  }

  function GapOf(captures: seq<Capture>, i: nat): Option<int>
    requires 0 < i < |captures|
  {
    if captures[i-1].completedAt <= captures[i].completedAt
    then Some((captures[i].completedAt - captures[i-1].completedAt) / 1_000_000) else None
  }

  /** The aggregation loop of Compact. */
  method Aggregate(captures: seq<Capture>) returns (t: Tally)
    ensures Counted(t, captures) && Stamped(t, captures) && Spaced(t, captures)
  {
    t := NOTHING;
    for n := 0 to |captures|
      invariant Counted(t, captures[..n]) && Stamped(t, captures[..n]) && Spaced(t, captures[..n])
    {
      t := CountCapture(t, captures, n);
      t := StampCapture(t, captures, n);
      t := SpaceCapture(t, captures, n);
    }
    assert captures[..|captures|] == captures;
  }
}
