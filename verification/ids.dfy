/**
 Indirect-object identifiers and their order.

 lopdf's `ObjectId` is the pair (object number, generation); collections keyed by it
 (`BTreeMap<ObjectId, _>`) iterate in the derived lexicographic order of that pair.
 This module defines that order, the least and greatest id of a finite set, and the
 ascending enumeration of a set, which is the iteration order of such a map.
 */
module Ids {

  /** Generation numbers are unsigned 16-bit integers. */
  type U16 = x: int | 0 <= x < 0x1_0000

  /** An indirect-object identifier: (object number, generation). */
  datatype ObjectId = ObjectId(num: nat, gen: U16)

  /** Strict lexicographic order on (number, generation). */
  predicate Lt(a: ObjectId, b: ObjectId) {
    a.num < b.num || (a.num == b.num && a.gen < b.gen)
  }

  predicate Le(a: ObjectId, b: ObjectId) {
    Lt(a, b) || a == b
  }

  predicate IsLeast(m: ObjectId, s: set<ObjectId>) {
    m in s && forall y :: y in s ==> Le(m, y)
  }

  predicate IsGreatest(m: ObjectId, s: set<ObjectId>) {
    m in s && forall y :: y in s ==> Le(y, m)
  }

  /** Every element strictly precedes every later one (so no element repeats). */
  ghost predicate StrictlyIncreasing(xs: seq<ObjectId>) {
    forall i, j :: 0 <= i < j < |xs| ==> Lt(xs[i], xs[j])
  }

  /** The ids a list mentions. */
  ghost function Elems(ids: seq<ObjectId>): set<ObjectId> {
    set id | id in ids
  }

  /** The order is total: two distinct ids are ordered one way or the other. */
  lemma Trichotomy(a: ObjectId, b: ObjectId)
    ensures Lt(a, b) || a == b || Lt(b, a)
  {
  }

  lemma LeastUnique(a: ObjectId, b: ObjectId, s: set<ObjectId>)
    requires IsLeast(a, s) && IsLeast(b, s)
    ensures a == b
  {
  }

  lemma GreatestUnique(a: ObjectId, b: ObjectId, s: set<ObjectId>)
    requires IsGreatest(a, s) && IsGreatest(b, s)
    ensures a == b
  {
  }

  /** A non-empty finite set of ids has a least element. */
  lemma {:induction false} LeastExists(s: set<ObjectId>)
    requires s != {}
    ensures exists m :: IsLeast(m, s)
  {
    var x :| x in s;
    if s == {x} {
      assert IsLeast(x, s);
    } else {
      LeastExists(s - {x});
      var m :| IsLeast(m, s - {x});
      Trichotomy(x, m);
      if Lt(x, m) {
        forall y | y in s ensures Le(x, y) {
          if y != x { assert Le(m, y); }
        }
        assert IsLeast(x, s);
      } else {
        assert IsLeast(m, s);
      }
    }
  }

  /** A non-empty finite set of ids has a greatest element. */
  lemma {:induction false} GreatestExists(s: set<ObjectId>)
    requires s != {}
    ensures exists m :: IsGreatest(m, s)
  {
    var x :| x in s;
    if s == {x} {
      assert IsGreatest(x, s);
    } else {
      GreatestExists(s - {x});
      var m :| IsGreatest(m, s - {x});
      Trichotomy(x, m);
      if Lt(m, x) {
        forall y | y in s ensures Le(y, x) {
          if y != x { assert Le(y, m); }
        }
        assert IsGreatest(x, s);
      } else {
        assert IsGreatest(m, s);
      }
    }
  }

  /** The least id of a non-empty set. */
  function MinId(s: set<ObjectId>): (m: ObjectId)
    requires s != {}
    ensures m in s
    ensures forall y :: y in s ==> Le(m, y)
  {
    LeastExists(s);
    var m :| IsLeast(m, s); m
  }

  /** The greatest id of a non-empty set. */
  function MaxId(s: set<ObjectId>): (m: ObjectId)
    requires s != {}
    ensures m in s
    ensures forall y :: y in s ==> Le(y, m)
  {
    GreatestExists(s);
    var m :| IsGreatest(m, s); m
  }

  /** The ascending enumeration of a finite set of ids: the order in which a
      `BTreeMap` keyed by `ObjectId` yields its keys. */
  function SortedIds(s: set<ObjectId>): (xs: seq<ObjectId>)
    ensures StrictlyIncreasing(xs)
    ensures forall x :: x in xs <==> x in s
    ensures |xs| == |s|
  {
    if s == {} then []
    else
      var m := MinId(s);
      var rest := SortedIds(s - {m});
      assert forall j :: 0 <= j < |rest| ==> rest[j] in s - {m};
      [m] + rest
  }

  /** Adding an id above every element does not move the least one. */
  lemma MinIdAddGreater(s: set<ObjectId>, x: ObjectId)
    requires s != {}
    requires forall y :: y in s ==> Lt(y, x)
    ensures MinId(s + {x}) == MinId(s)
  {
    LeastUnique(MinId(s + {x}), MinId(s), s + {x});
  }

  lemma MinIdSingleton(x: ObjectId)
    ensures MinId({x}) == x
  {
  }

  /** Adding an id above every element makes it the greatest one. */
  lemma MaxIdAddGreater(s: set<ObjectId>, x: ObjectId)
    requires forall y :: y in s ==> Lt(y, x)
    ensures MaxId(s + {x}) == x
  {
    GreatestUnique(MaxId(s + {x}), x, s + {x});
  }
}
