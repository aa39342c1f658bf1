/** Option values, finite sums and extrema used by the table and scheduler models. */
module Prelude {

  datatype Option<+T> = None | Some(value: T)

  function GetOr<T>(v: Option<T>, default: T): T {
    if v.Some? then v.value else default
  }

  /** The sum of `f` over a finite set. */
  ghost function Sum<K(!new)>(keys: set<K>, f: K -> nat): nat {
    if keys == {} then 0
    else
      var k :| k in keys;
      f(k) + Sum(keys - {k}, f)
  }

  /** Any element may be taken out of the sum. */
  lemma {:induction false} SumRemove<K(!new)>(keys: set<K>, f: K -> nat, k: K)
    requires k in keys
    ensures Sum(keys, f) == f(k) + Sum(keys - {k}, f)
    decreases |keys|
  {
    var j :| j in keys && Sum(keys, f) == f(j) + Sum(keys - {j}, f);
    if j != k {
      SumRemove(keys - {j}, f, k);
      SumRemove(keys - {k}, f, j);
      assert keys - {j} - {k} == keys - {k} - {j};
    }
  }

  lemma {:induction false} SumSame<K(!new)>(keys: set<K>, f: K -> nat, g: K -> nat)
    requires forall k :: k in keys ==> f(k) == g(k)
    ensures Sum(keys, f) == Sum(keys, g)
    decreases |keys|
  {
    if keys != {} {
      var k :| k in keys;
      SumRemove(keys, f, k);
      SumRemove(keys, g, k);
      SumSame(keys - {k}, f, g);
    }
  }

  /** The number of elements whose label is `v`. */
  function Labelled<T(!new), V(==)>(items: set<T>, label_: T -> V, v: V): nat {
    |set x | x in items && label_(x) == v|
  }

  lemma LabelledAre<T(!new), V>(items: set<T>, label_: T -> V, v: V, those: set<T>)
    requires forall x :: x in those <==> x in items && label_(x) == v
    ensures Labelled(items, label_, v) == |those|
  {
    assert those == set x | x in items && label_(x) == v;
  }

  lemma SplitSize<T>(all: set<T>, part: set<T>, rest: set<T>)
    requires all == part + rest && part !! rest
    ensures |all| == |part| + |rest|
  {
  }

  lemma LabelledWithout<T(!new), V>(items: set<T>, mine: set<T>, label_: T -> V, v: V, u: V)
    requires mine == (set x | x in items && label_(x) == v) && u != v
    ensures Labelled(items - mine, label_, u) == Labelled(items, label_, u)
  {
    assert (set x | x in items && label_(x) == u) == (set x | x in items - mine && label_(x) == u);
  }

  /** Counting by label loses and repeats nothing. */
  lemma {:induction false} LabelsPartition<T(!new), V(!new)>(items: set<T>, label_: T -> V, labels: set<V>)
    requires forall x :: x in items ==> label_(x) in labels
    ensures Sum(labels, v => Labelled(items, label_, v)) == |items|
    decreases |labels|
  {
    var f := v => Labelled(items, label_, v);
    if labels == {} {
      assert items == {};
    } else {
      var v :| v in labels;
      SumRemove(labels, f, v);
      var mine := set x | x in items && label_(x) == v;
      var rest := items - mine;
      LabelsPartition(rest, label_, labels - {v});
      var g := u => Labelled(rest, label_, u);
      forall u | u in labels - {v} ensures f(u) == g(u) {
        LabelledWithout(items, mine, label_, v, u);
      }
      SumSame(labels - {v}, f, g);
      SplitSize(items, mine, rest);
    }
  }

  /** The sum of a table of counts. */
  ghost function CountTotal(m: map<string, nat>): nat {
    Sum(m.Keys, Counter(m))
  }

  function Counter(m: map<string, nat>): string -> nat {
    k => if k in m then m[k] else 0
  }

  ghost function Pick<T(!new)>(s: set<T>): (x: T)
    requires s != {}
    ensures x in s
  {
    var x :| x in s;
    x
  }

  ghost function MaxOf(s: set<int>): (m: int)
    requires s != {}
    ensures m in s && forall x :: x in s ==> x <= m
  {
    var x := Pick(s);
    if s == {x} then x
    else
      var y := MaxOf(s - {x});
      assert s == (s - {x}) + {x};
      if x <= y then y else x
  }

  lemma SubsetSize<T>(a: set<T>, b: set<T>)
    requires a <= b
    ensures |a| <= |b|
  {
    assert b == a + (b - a);
  }
}
