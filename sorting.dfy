/**
 * Ordering query results by a timestamp column, as `order_by(col.asc())` and
 * `order_by(col.desc())` do, followed by `limit(k)`. The database leaves the order
 * of equal timestamps open; this insertion sort fixes one, and every property
 * stated about it holds whatever order equal keys come in.
 */
module Sorting {

  predicate Ascending<T>(s: seq<T>, key: T -> int) {
    forall i, j :: 0 <= i < j < |s| ==> key(s[i]) <= key(s[j])
  }

  predicate Descending<T>(s: seq<T>, key: T -> int) {
    forall i, j :: 0 <= i < j < |s| ==> key(s[i]) >= key(s[j])
  }

  function Insert<T>(x: T, s: seq<T>, key: T -> int): (r: seq<T>)
    requires Ascending(s, key)
    ensures multiset(r) == multiset(s) + multiset{x}
    ensures |r| == |s| + 1
    ensures r[0] == x || (s != [] && r[0] == s[0])
    ensures Ascending(r, key)
  {
    if s == [] then [x]
    else if key(x) <= key(s[0]) then
      AscendingCons(x, s, key);
      [x] + s
    else
      assert s == [s[0]] + s[1..];
      var rest := Insert(x, s[1..], key);
      AscendingCons(s[0], rest, key);
      [s[0]] + rest
  }

  lemma AscendingCons<T>(h: T, t: seq<T>, key: T -> int)
    requires Ascending(t, key) && (t != [] ==> key(h) <= key(t[0]))
    ensures Ascending([h] + t, key)
  {
  }

  /** `order_by(key.asc())`: a permutation of `s` with keys ascending. */
  function SortBy<T(!new)>(s: seq<T>, key: T -> int): (r: seq<T>)
    ensures multiset(r) == multiset(s)
    ensures |r| == |s|
    ensures forall x :: x in r <==> x in s
    ensures Ascending(r, key)
  {
    if s == [] then []
    else
      assert s == [s[0]] + s[1..];
      var r := Insert(s[0], SortBy(s[1..], key), key);
      SameElements(r, s);
      r
  }

  lemma SameElements<T>(a: seq<T>, b: seq<T>)
    requires multiset(a) == multiset(b)
    ensures forall x :: x in a <==> x in b
  {
    forall x ensures x in a <==> x in b {
      assert x in a <==> x in multiset(a);
      assert x in b <==> x in multiset(b);
    }
  }

  function Reverse<T>(s: seq<T>): (r: seq<T>)
    ensures |r| == |s|
    ensures forall i :: 0 <= i < |s| ==> r[i] == s[|s| - 1 - i]
  {
    if s == [] then [] else Reverse(s[1..]) + [s[0]]
  }

  lemma ReverseSameElements<T>(s: seq<T>)
    ensures multiset(Reverse(s)) == multiset(s)
  {
    if s != [] {
      assert s == [s[0]] + s[1..];
      ReverseSameElements(s[1..]);
    }
  }

  /** `order_by(key.desc())`: a permutation of `s` with keys descending. */
  function NewestFirst<T(!new)>(s: seq<T>, key: T -> int): (r: seq<T>)
    ensures multiset(r) == multiset(s)
    ensures |r| == |s|
    ensures forall x :: x in r <==> x in s
    ensures Descending(r, key)
  {
    var up := SortBy(s, key);
    ReverseSameElements(up);
    SameElements(Reverse(up), s);
    Reverse(up)
  }

  /** The first k items of an ascending sequence are no later than any item left out. */
  lemma PrefixOfAscending<T>(s: seq<T>, k: nat, key: T -> int)
    requires Ascending(s, key) && k <= |s|
    ensures forall x, y :: x in s[..k] && y in s && y !in s[..k] ==> key(x) <= key(y)
  {
    forall x, y | x in s[..k] && y in s && y !in s[..k]
      ensures key(x) <= key(y)
    {
      var i :| 0 <= i < k && s[i] == x;
      var j :| 0 <= j < |s| && s[j] == y;
    }
  }

  /** The first k items of a descending sequence are no earlier than any item left out. */
  lemma PrefixOfDescending<T>(s: seq<T>, k: nat, key: T -> int)
    requires Descending(s, key) && k <= |s|
    ensures forall x, y :: x in s[..k] && y in s && y !in s[..k] ==> key(y) <= key(x)
  {
    forall x, y | x in s[..k] && y in s && y !in s[..k]
      ensures key(y) <= key(x)
    {
      var i :| 0 <= i < k && s[i] == x;
      var j :| 0 <= j < |s| && s[j] == y;
    }
  }

  function Min(a: nat, b: nat): nat { if a <= b then a else b }

  /** `order_by(key.asc()).limit(k)`: the k earliest items, earliest first. */
  function Earliest<T(!new)>(s: seq<T>, key: T -> int, k: nat): (r: seq<T>)
    ensures |r| == Min(k, |s|)
    ensures Ascending(r, key)
    ensures forall x :: x in r ==> x in s
    ensures multiset(r) <= multiset(s)
    ensures forall x, y :: x in r && y in s && y !in r ==> key(x) <= key(y)
  {
    var sorted := SortBy(s, key);
    PrefixOfAscending(sorted, Min(k, |s|), key);
    PrefixMultiset(sorted, Min(k, |s|));
    sorted[..Min(k, |s|)]
  }

  /** `order_by(key.desc()).limit(k)`: the k latest items, latest first. */
  function Latest<T(!new)>(s: seq<T>, key: T -> int, k: nat): (r: seq<T>)
    ensures |r| == Min(k, |s|)
    ensures Descending(r, key)
    ensures forall x :: x in r ==> x in s
    ensures multiset(r) <= multiset(s)
    ensures forall x, y :: x in r && y in s && y !in r ==> key(y) <= key(x)
  {
    var sorted := NewestFirst(s, key);
    PrefixOfDescending(sorted, Min(k, |s|), key);
    PrefixMultiset(sorted, Min(k, |s|));
    sorted[..Min(k, |s|)]
  }

  lemma PrefixMultiset<T>(s: seq<T>, k: nat)
    requires k <= |s|
    ensures multiset(s[..k]) <= multiset(s)
  {
    assert s == s[..k] + s[k..];
  }
}
