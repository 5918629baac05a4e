/** What `Model.find(filter).sort({date: ±1})` returns: every matching
    document once, ordered on its date. MongoDB leaves the relative order of
    documents with equal dates open; the model fixes one such order without
    saying which. */
module Ordering {
  import opened Common

  /** `r` lists the set `s`: each of its elements exactly once, in some order. */
  ghost predicate Lists(r: seq<Id>, s: set<Id>) {
    NoDup(r) && forall x :: x in r <==> x in s
  }

  /** Some enumeration of a finite set: the order the database happens to
      return the matching documents in. */
  ghost function Enumerate(s: set<Id>): (r: seq<Id>)
    ensures Lists(r, s)
  {
    if s == {} then []
    else
      var x :| x in s;
      [x] + Enumerate(s - {x})
  }

  /** A permutation of a listing is a listing of the same set. */
  lemma ListsPermutation(xs: seq<Id>, ys: seq<Id>, s: set<Id>)
    requires Lists(xs, s)
    requires multiset(ys) == multiset(xs)
    ensures Lists(ys, s)
  {
    forall x | x in ys ensures multiset(ys)[x] == 1 {
      assert x in multiset(xs);
    }
    forall x ensures x in ys <==> x in s {
      assert x in ys <==> x in multiset(ys);
      assert x in xs <==> x in multiset(xs);
    }
  }

  /** MongoDB's ascending order on a date field: a document without the field
      sorts before every dated one. */
  predicate KeyLe(a: Option<Instant>, b: Option<Instant>) {
    a.None? || (b.Some? && a.value <= b.value)
  }

  /** A document with key `a` may precede one with key `b` in a sort on that
      key, ascending (`{date: 1}`) or descending (`{date: -1}`). */
  predicate InOrder(a: Option<Instant>, b: Option<Instant>, descending: bool) {
    if descending then KeyLe(b, a) else KeyLe(a, b)
  }

  ghost predicate SortedBy(r: seq<Id>, key: Id -> Option<Instant>, descending: bool) {
    forall i, j :: 0 <= i < j < |r| ==> InOrder(key(r[i]), key(r[j]), descending)
  }

  /** Every element of `r` may follow a document with key `k`. */
  ghost predicate AllAfter(k: Option<Instant>, r: seq<Id>, key: Id -> Option<Instant>, descending: bool) {
    forall y :: y in r ==> InOrder(k, key(y), descending)
  }

  function InsertSorted(x: Id, r: seq<Id>, key: Id -> Option<Instant>, descending: bool): (t: seq<Id>)
    requires SortedBy(r, key, descending)
    ensures multiset(t) == multiset(r) + multiset{x}
    ensures SortedBy(t, key, descending)
  {
    if r == [] then [x]
    else if InOrder(key(x), key(r[0]), descending) then [x] + r
    else
      var rest := InsertSorted(x, r[1..], key, descending);
      assert AllAfter(key(r[0]), rest, key, descending) by {
        forall y | y in rest ensures InOrder(key(r[0]), key(y), descending) {
          assert y in multiset(rest);
          if y != x {
            assert y in multiset(r[1..]);
            var j :| 0 <= j < |r[1..]| && r[1..][j] == y;
            assert r[j + 1] == y;
          }
        }
      }
      assert r == [r[0]] + r[1..];
      [r[0]] + rest
  }

  /** Insertion sort on the key: the result is a sorted permutation. */
  function SortBy(xs: seq<Id>, key: Id -> Option<Instant>, descending: bool): (r: seq<Id>)
    ensures multiset(r) == multiset(xs)
    ensures SortedBy(r, key, descending)
  {
    if xs == [] then []
    else
      assert xs == [xs[0]] + xs[1..];
      InsertSorted(xs[0], SortBy(xs[1..], key, descending), key, descending)
  }

  /** The documents of `s`, each once, sorted on `key`. */
  ghost function SortedListing(s: set<Id>, key: Id -> Option<Instant>, descending: bool): (r: seq<Id>)
    ensures Lists(r, s)
    ensures SortedBy(r, key, descending)
  {
    var e := Enumerate(s);
    var r := SortBy(e, key, descending);
    ListsPermutation(e, r, s);
    r
  }
}
