/** The destination snapshot of a manifest: sorted lists, the verifier's comparison and the upload queue it yields. */
module Destinations {
  import Text

  datatype Destination = Destination(id: string, required: bool)

  const NUL: char := '\0'

  // ---- sorting ----

  function Insert(x: string, s: seq<string>): seq<string> {
    if |s| == 0 then [x] else if Text.LexLe(x, s[0]) then [x] + s else [s[0]] + Insert(x, s[1..])
  }

  function Sorted(s: seq<string>): seq<string> {
    if |s| == 0 then [] else Insert(s[0], Sorted(s[1..]))
  }

  predicate Ordered(s: seq<string>) {
    |s| > 0 ==> (forall x :: x in s ==> Text.LexLe(s[0], x)) && Ordered(s[1..])
  }

  lemma {:induction false} InsertHolds(x: string, s: seq<string>)
    ensures multiset(Insert(x, s)) == multiset(s) + multiset{x}
    ensures forall y :: y in Insert(x, s) <==> y == x || y in s
  {
    if |s| > 0 {
      InsertHolds(x, s[1..]);
      assert s == [s[0]] + s[1..];
    }
  }

  lemma {:induction false} InsertOrdered(x: string, s: seq<string>)
    requires Ordered(s)
    ensures Ordered(Insert(x, s))
  {
    if |s| == 0 {
    } else if Text.LexLe(x, s[0]) {
      forall y | y in [x] + s ensures Text.LexLe(x, y) {
        if y != x && x != s[0] && y != s[0] { Text.LexTransitive(x, s[0], y); }
      }
      assert ([x] + s)[1..] == s;
    } else {
      Text.LexTotal(x, s[0]);
      InsertOrdered(x, s[1..]);
      InsertHolds(x, s[1..]);
      var r := Insert(x, s);
      assert r[1..] == Insert(x, s[1..]);
      assert s == [s[0]] + s[1..];
    }
  }

  lemma {:induction false} SortedHolds(s: seq<string>)
    ensures multiset(Sorted(s)) == multiset(s) && Ordered(Sorted(s))
    ensures forall y :: y in Sorted(s) <==> y in s
    ensures |Sorted(s)| == |s|
  {
    if |s| > 0 {
      SortedHolds(s[1..]);
      InsertHolds(s[0], Sorted(s[1..]));
      InsertOrdered(s[0], Sorted(s[1..]));
      assert s == [s[0]] + s[1..];
      assert |multiset(Sorted(s))| == |Sorted(s)| && |multiset(s)| == |s|;
    }
  }

  lemma TailElements(a: seq<string>)
    requires |a| > 0
    ensures multiset(a[1..]) == multiset(a) - multiset{a[0]}
  {
    assert a == [a[0]] + a[1..];
  }

  lemma SameHead(a: seq<string>, b: seq<string>)
    requires Ordered(a) && Ordered(b) && multiset(a) == multiset(b) && |a| > 0
    ensures |b| > 0 && a[0] == b[0] && multiset(a[1..]) == multiset(b[1..])
  {
    assert a[0] in multiset(b);
    assert |b| > 0;
    assert b[0] in multiset(a);
    assert a[0] in b && b[0] in a;
    if a[0] != b[0] {
      Text.LexAsymmetric(a[0], b[0]);
    }
    TailElements(a);
    TailElements(b);
  }

  /** Two ordered lists with the same elements are the same list. */
  lemma {:induction false} OrderedUnique(a: seq<string>, b: seq<string>)
    requires Ordered(a) && Ordered(b) && multiset(a) == multiset(b)
    ensures a == b
  {
    if |a| > 0 {
      SameHead(a, b);
      OrderedUnique(a[1..], b[1..]);
      assert a == [a[0]] + a[1..] && b == [b[0]] + b[1..];
    } else {
      assert |multiset(b)| == |b| == |multiset(a)|;
    }
  }

  /** Sorting forgets the order and nothing else. */
  lemma SortedEqual(a: seq<string>, b: seq<string>)
    ensures Sorted(a) == Sorted(b) <==> multiset(a) == multiset(b)
  {
    SortedHolds(a);
    SortedHolds(b);
    if multiset(a) == multiset(b) {
      OrderedUnique(Sorted(a), Sorted(b));
    }
  }

  // ---- the snapshot ----

  function RequiredIds(ds: seq<Destination>): seq<string> {
    if |ds| == 0 then [] else (if ds[0].required then [ds[0].id] else []) + RequiredIds(ds[1..])
  }

  lemma {:induction false} RequiredIdsAppend(ds: seq<Destination>, d: Destination)
    ensures RequiredIds(ds + [d]) == RequiredIds(ds) + (if d.required then [d.id] else [])
  {
    if |ds| > 0 {
      assert (ds + [d])[1..] == ds[1..] + [d];
      RequiredIdsAppend(ds[1..], d);
    }
  }

  lemma {:induction false} RequiredIdsNamed(ds: seq<Destination>)
    ensures forall id :: id in RequiredIds(ds) <==> exists d :: d in ds && d.required && d.id == id
  {
    if |ds| > 0 {
      RequiredIdsNamed(ds[1..]);
      assert ds == [ds[0]] + ds[1..];
    }
  }

  predicate Identified(ds: seq<Destination>) {
    && (forall d :: d in ds ==> d.id != "")
    && (forall i, j :: 0 <= i < j < |ds| ==> ds[i].id != ds[j].id)
  }

  function Joined(ids: seq<string>): string {
    Text.JoinChar(ids, NUL)
  }

  /** What VerifyDirectory asks of a snapshot: distinct, named destinations whose required ones are the required
      list. */
  predicate SnapshotOk(ds: seq<Destination>, required: seq<string>) {
    |ds| != 0 ==> Identified(ds) && Joined(Sorted(RequiredIds(ds))) == Joined(Sorted(required))
  }

  /** The verifier's loop over the snapshot. */
  method VerifySnapshot(ds: seq<Destination>, requiredDestinations: seq<string>) returns (ok: bool)
    ensures ok <==> SnapshotOk(ds, requiredDestinations)
  {
    if |ds| == 0 {
      return true;
    }
    var required, seen := [], {};
    for i := 0 to |ds|
      invariant required == RequiredIds(ds[..i])
      invariant Identified(ds[..i]) && seen == set d | d in ds[..i] :: d.id
    {
      var d := ds[i];
      assert ds[..i+1] == ds[..i] + [d];
      if d.id == "" || d.id in seen {
        assert d in ds;
        assert d.id in seen ==> exists j :: 0 <= j < i && ds[j].id == d.id;
        return false;
      }
      RequiredIdsAppend(ds[..i], d);
      seen := seen + {d.id};
      if d.required {
        required := required + [d.id];
      }
    }
    assert ds[..|ds|] == ds;
    return Joined(Sorted(required)) == Joined(Sorted(requiredDestinations));
  }

  /** For IDs without NUL the comparison holds exactly when both lists hold the same IDs equally often. */
  lemma SnapshotExactly(ds: seq<Destination>, required: seq<string>)
    requires Identified(ds)
    requires forall d :: d in ds ==> NUL !in d.id
    requires forall id :: id in required ==> NUL !in id && id != ""
    ensures Joined(Sorted(RequiredIds(ds))) == Joined(Sorted(required)) <==>
      multiset(RequiredIds(ds)) == multiset(required)
  {
    var a, b := Sorted(RequiredIds(ds)), Sorted(required);
    RequiredIdsNamed(ds);
    SortedHolds(RequiredIds(ds));
    SortedHolds(required);
    SortedEqual(RequiredIds(ds), required);
    if Joined(a) == Joined(b) {
      JoinedNonempty(a);
      JoinedNonempty(b);
      if |a| > 0 && |b| > 0 {
        Text.SplitJoin(a, NUL);
        Text.SplitJoin(b, NUL);
      }
    }
  }

  lemma {:induction false} JoinedNonempty(ids: seq<string>)
    requires forall id :: id in ids ==> id != ""
    ensures Joined(ids) == "" <==> |ids| == 0
  {
    if |ids| > 0 {
      assert ids[0] in ids && |Joined(ids)| >= |ids[0]|;
    }
  }

  /** Whatever the IDs: a snapshot with a required destination forces a non-empty required list. */
  lemma RequiredTied(ds: seq<Destination>, required: seq<string>)
    requires SnapshotOk(ds, required) && required == []
    ensures forall d :: d in ds ==> !d.required
  {
    if |ds| > 0 {
      RequiredIdsNamed(ds);
      SortedHolds(RequiredIds(ds));
      JoinedNonempty(Sorted(RequiredIds(ds)));
      assert forall d :: d in ds && d.required ==> d.id in RequiredIds(ds);
    }
  }

  // ---- what the compactor writes ----

  function InsertDestination(d: Destination, ds: seq<Destination>): seq<Destination> {
    if |ds| == 0 then [d] else if Text.LexLe(d.id, ds[0].id) then [d] + ds else [ds[0]] + InsertDestination(d, ds[1..])
  }

  /** manifestDestinations. */
  function SortDestinations(ds: seq<Destination>): seq<Destination> {
    if |ds| == 0 then [] else InsertDestination(ds[0], SortDestinations(ds[1..]))
  }

  lemma IdentifiedTail(d: Destination, ds: seq<Destination>)
    requires Identified([d] + ds)
    ensures d.id != "" && (forall e :: e in ds ==> e.id != d.id) && Identified(ds)
  {
    var all := [d] + ds;
    assert all[1..] == ds && d in all;
    assert forall e :: e in ds ==> e in all[1..] && e in all;
    forall i | 0 <= i < |ds| ensures ds[i].id != d.id {
      assert all[0].id != all[i + 1].id;
    }
    forall i, j | 0 <= i < j < |ds| ensures ds[i].id != ds[j].id {
      assert all[i + 1].id != all[j + 1].id;
    }
  }

  lemma IdentifiedCons(d: Destination, ds: seq<Destination>)
    requires d.id != "" && (forall e :: e in ds ==> e.id != d.id) && Identified(ds)
    ensures Identified([d] + ds)
  {
    var all := [d] + ds;
    assert forall i :: 0 < i < |all| ==> all[i] == ds[i - 1] && all[i] in ds;
  }

  lemma {:induction false} InsertMembers(d: Destination, ds: seq<Destination>)
    ensures forall e :: e in InsertDestination(d, ds) <==> e == d || e in ds
  {
    if |ds| > 0 && !Text.LexLe(d.id, ds[0].id) {
      InsertMembers(d, ds[1..]);
      assert ds == [ds[0]] + ds[1..];
    }
  }

  lemma {:induction false} InsertRequired(d: Destination, ds: seq<Destination>)
    ensures multiset(RequiredIds(InsertDestination(d, ds)))
         == multiset(RequiredIds(ds)) + (if d.required then multiset{d.id} else multiset{})
  {
    if |ds| == 0 || Text.LexLe(d.id, ds[0].id) {
      assert ([d] + ds)[1..] == ds;
    } else {
      InsertRequired(d, ds[1..]);
      assert InsertDestination(d, ds)[1..] == InsertDestination(d, ds[1..]);
    }
  }

  lemma {:induction false} InsertIdentified(d: Destination, ds: seq<Destination>)
    requires Identified([d] + ds)
    ensures Identified(InsertDestination(d, ds))
  {
    if |ds| > 0 && !Text.LexLe(d.id, ds[0].id) {
      var head, rest := ds[0], ds[1..];
      assert ds == [head] + rest;
      IdentifiedTail(d, ds);
      IdentifiedTail(head, rest);
      assert forall e :: e in rest ==> e in ds;
      IdentifiedCons(d, rest);
      InsertIdentified(d, rest);
      InsertMembers(d, rest);
      IdentifiedCons(head, InsertDestination(d, rest));
    }
  }

  lemma {:induction false} SortMembers(ds: seq<Destination>)
    ensures forall e :: e in SortDestinations(ds) <==> e in ds
  {
    if |ds| > 0 {
      var rest := SortDestinations(ds[1..]);
      SortMembers(ds[1..]);
      InsertMembers(ds[0], rest);
      forall e ensures e in SortDestinations(ds) <==> e in ds {
        assert e in ds <==> e == ds[0] || e in ds[1..];
      }
    }
  }

  lemma {:induction false} SortRequired(ds: seq<Destination>)
    ensures multiset(RequiredIds(SortDestinations(ds))) == multiset(RequiredIds(ds))
  {
    if |ds| > 0 {
      SortRequired(ds[1..]);
      InsertRequired(ds[0], SortDestinations(ds[1..]));
    }
  }

  lemma {:induction false} SortIdentified(ds: seq<Destination>)
    requires Identified(ds)
    ensures Identified(SortDestinations(ds))
  {
    if |ds| > 0 {
      assert ds == [ds[0]] + ds[1..];
      IdentifiedTail(ds[0], ds[1..]);
      SortIdentified(ds[1..]);
      SortMembers(ds[1..]);
      IdentifiedCons(ds[0], SortDestinations(ds[1..]));
      InsertIdentified(ds[0], SortDestinations(ds[1..]));
    }
  }

  /** The snapshot the compactor writes always passes. */
  lemma WrittenSnapshotOk(ds: seq<Destination>)
    requires Identified(ds)
    ensures SnapshotOk(SortDestinations(ds), Sorted(RequiredIds(ds)))
  {
    SortRequired(ds);
    SortIdentified(ds);
    SortedHolds(RequiredIds(ds));
    SortedEqual(RequiredIds(ds), Sorted(RequiredIds(ds)));
    SortedEqual(RequiredIds(SortDestinations(ds)), Sorted(RequiredIds(ds)));
  }

  // ---- the queue ----

  /** destinations[d.ID] = d.Required, in order. */
  function Queue(ds: seq<Destination>): map<string, bool> {
    if |ds| == 0 then map[] else Queue(ds[..|ds|-1])[ds[|ds|-1].id := ds[|ds|-1].required]
  }

  lemma {:induction false} QueueHolds(ds: seq<Destination>)
    requires Identified(ds)
    ensures forall d :: d in ds ==> d.id in Queue(ds) && Queue(ds)[d.id] == d.required
    ensures forall id :: id in Queue(ds) ==> Destination(id, Queue(ds)[id]) in ds
  {
    if |ds| > 0 {
      var front, last := ds[..|ds|-1], ds[|ds|-1];
      assert ds == front + [last];
      QueueHolds(front);
      forall d | d in front ensures d.id != last.id {
        var i :| 0 <= i < |front| && front[i] == d;
        assert ds[i] == d;
      }
    }
  }

  lemma QueueWithin(ds: seq<Destination>, es: seq<Destination>, id: string)
    requires Identified(ds) && Identified(es) && (forall d :: d in ds ==> d in es) && id in Queue(ds)
    ensures id in Queue(es) && Queue(es)[id] == Queue(ds)[id]
  {
    QueueHolds(ds);
    QueueHolds(es);
    assert Destination(id, Queue(ds)[id]) in es;
  }

  /** The queue rebuilt from the snapshot is the queue of the configuration. */
  lemma QueueOfSnapshot(ds: seq<Destination>)
    requires Identified(ds)
    ensures Queue(SortDestinations(ds)) == Queue(ds)
  {
    SortMembers(ds);
    SortIdentified(ds);
    var a, b := Queue(SortDestinations(ds)), Queue(ds);
    forall id ensures (id in a <==> id in b) && (id in a ==> a[id] == b[id]) {
      if id in a { QueueWithin(SortDestinations(ds), ds, id); }
      if id in b { QueueWithin(ds, SortDestinations(ds), id); }
    }
  }

  /** Manifests without a snapshot queue their required list. */
  function LegacyQueue(required: seq<string>): map<string, bool> {
    map id | id in required :: true
  }

  function QueueOf(ds: seq<Destination>, required: seq<string>): map<string, bool> {
    if |ds| == 0 then LegacyQueue(required) else Queue(ds)
  }

  /** A verified manifest with an empty required list queues no required upload: adopting it as published
      keeps the publication gate exact. */
  lemma EmptyRequiredQueuesNone(ds: seq<Destination>, required: seq<string>)
    requires SnapshotOk(ds, required) && required == []
    ensures forall id :: id in QueueOf(ds, required) ==> !QueueOf(ds, required)[id]
  {
    RequiredTied(ds, required);
    if |ds| > 0 {
      QueueHolds(ds);
    }
  }
}
