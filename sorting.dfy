/**
 * `Array.prototype.sort` with the comparator `(a, b) => key(a) - key(b)`:
 * a stable sort by an integer key, written as insertion sort.
 */
module Sorting {

  predicate SortedBy<T>(s: seq<T>, key: T -> int)
  {
    forall i, j | 0 <= i < j < |s| :: key(s[i]) <= key(s[j])
  }

  /** Puts x before the first element whose key is not smaller than x's. */
  function Insert<T>(x: T, s: seq<T>, key: T -> int): (r: seq<T>)
    requires SortedBy(s, key)
    ensures SortedBy(r, key)
    ensures multiset(r) == multiset(s) + multiset{x}
  {
    if |s| == 0 then [x]
    else if key(x) <= key(s[0]) then [x] + s
    else
      var tail := Insert(x, s[1..], key);
      BoundedBelow(s[0], x, s[1..], tail, key);
      assert [s[0]] + s[1..] == s;
      [s[0]] + tail
  }

  lemma BoundedBelow<T>(h: T, x: T, rest: seq<T>, tail: seq<T>, key: T -> int)
    requires key(h) <= key(x)
    requires forall y | y in rest :: key(h) <= key(y)
    requires multiset(tail) == multiset(rest) + multiset{x}
    ensures forall i | 0 <= i < |tail| :: key(h) <= key(tail[i])
  {
    forall i | 0 <= i < |tail| ensures key(h) <= key(tail[i]) {
      assert tail[i] in multiset(tail);
      if tail[i] != x {
        assert tail[i] in multiset(rest);
      }
    }
  }

  function SortBy<T>(s: seq<T>, key: T -> int): (r: seq<T>)
    ensures SortedBy(r, key)
    ensures multiset(r) == multiset(s) && |r| == |s|
  {
    if |s| == 0 then []
    else
      assert [s[0]] + s[1..] == s;
      Insert(s[0], SortBy(s[1..], key), key)
  }

  /** The elements of s whose key is k, in their order in s. */
  function WithKey<T>(s: seq<T>, key: T -> int, k: int): seq<T>
    decreases |s|
  {
    if |s| == 0 then []
    else (if key(s[0]) == k then [s[0]] else []) + WithKey(s[1..], key, k)
  }

  lemma {:induction false} InsertWithKey<T>(x: T, t: seq<T>, key: T -> int, k: int)
    requires SortedBy(t, key)
    ensures WithKey(Insert(x, t, key), key, k) == (if key(x) == k then [x] else []) + WithKey(t, key, k)
    decreases |t|
  {
    var mine: seq<T> := if key(x) == k then [x] else [];
    if |t| == 0 {
      assert Insert(x, t, key) == [x];
      assert [x][1..] == [];
    } else if key(x) <= key(t[0]) {
      assert Insert(x, t, key) == [x] + t;
      assert ([x] + t)[1..] == t;
    } else {
      var tail := Insert(x, t[1..], key);
      assert Insert(x, t, key) == [t[0]] + tail;
      assert ([t[0]] + tail)[1..] == tail;
      InsertWithKey(x, t[1..], key, k);
      var head: seq<T> := if key(t[0]) == k then [t[0]] else [];
      assert WithKey(t, key, k) == head + WithKey(t[1..], key, k);
      assert WithKey([t[0]] + tail, key, k) == head + (mine + WithKey(t[1..], key, k));
      assert head == [] || mine == [];
    }
  }

  /**
   * The sort is stable: the elements that share a key come out in the order
   * they went in, as `Array.prototype.sort` guarantees.
   */
  lemma {:induction false} SortByStable<T>(s: seq<T>, key: T -> int, k: int)
    ensures WithKey(SortBy(s, key), key, k) == WithKey(s, key, k)
    decreases |s|
  {
    if |s| > 0 {
      SortByStable(s[1..], key, k);
      InsertWithKey(s[0], SortBy(s[1..], key), key, k);
    }
  }

  function MapSeq<T>(s: seq<T>, f: T -> T): (r: seq<T>)
    ensures |r| == |s|
  {
    seq(|s|, i requires 0 <= i < |s| => f(s[i]))
  }

  lemma {:induction false} InsertMapCommutes<T(!new)>(x: T, s: seq<T>, f: T -> T, key: T -> int)
    requires SortedBy(s, key)
    requires forall y :: key(f(y)) == key(y)
    ensures SortedBy(MapSeq(s, f), key)
    ensures Insert(f(x), MapSeq(s, f), key) == MapSeq(Insert(x, s, key), f)
  {
    var fs := MapSeq(s, f);
    assert forall i | 0 <= i < |s| :: key(fs[i]) == key(s[i]);
    if |s| > 0 && key(x) > key(s[0]) {
      InsertMapCommutes(x, s[1..], f, key);
      assert fs[1..] == MapSeq(s[1..], f);
    }
  }

  /** Sorting commutes with a map that keeps every key. */
  lemma {:induction false} SortByMapCommutes<T(!new)>(s: seq<T>, f: T -> T, key: T -> int)
    requires forall y :: key(f(y)) == key(y)
    ensures SortBy(MapSeq(s, f), key) == MapSeq(SortBy(s, key), f)
  {
    if |s| > 0 {
      var fs := MapSeq(s, f);
      assert fs[1..] == MapSeq(s[1..], f);
      SortByMapCommutes(s[1..], f, key);
      InsertMapCommutes(s[0], SortBy(s[1..], key), f, key);
    }
  }

  /** Sequences with the same multiset hold the same elements. */
  lemma SameElements<T>(a: seq<T>, b: seq<T>)
    requires multiset(a) == multiset(b)
    ensures forall x :: x in a <==> x in b
  {
    forall x ensures x in a <==> x in b {
      assert x in a <==> x in multiset(a);
      assert x in b <==> x in multiset(b);
    }
  }
}
