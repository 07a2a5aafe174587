/**
 * Python dicts as the list of their items in insertion order. Assigning to a key
 * that is already present replaces its value in place; a new key goes to the end.
 * `max(d.items(), key=lambda x: x[1])` scans the items in that order and keeps the
 * first item whose value is maximal.
 */
module OrderedDict {
  import opened Wrappers

  type Dict<K, V> = seq<(K, V)>

  /** Every key occurs at most once. */
  predicate DistinctKeys<K(==,!new), V>(d: Dict<K, V>) {
    forall i, j :: 0 <= i < j < |d| ==> d[i].0 != d[j].0
  }

  /** Position of the first item whose key is `k`. */
  function IndexOf<K(==,!new), V>(d: seq<(K, V)>, k: K): (r: Option<nat>)
    ensures r.Some? ==> r.value < |d| && d[r.value].0 == k
    ensures r.Some? ==> forall j :: 0 <= j < r.value ==> d[j].0 != k
    ensures r.None? <==> forall j :: 0 <= j < |d| ==> d[j].0 != k
  {
    if d == [] then None
    else if d[0].0 == k then Some(0)
    else match IndexOf(d[1..], k)
      case None => None
      case Some(i) => Some(i + 1)
  }

  /** `d.get(k)`. */
  function Get<K(==,!new), V>(d: Dict<K, V>, k: K): (r: Option<V>)
    ensures r.None? <==> forall j :: 0 <= j < |d| ==> d[j].0 != k
    ensures r.Some? ==> exists j :: 0 <= j < |d| && d[j] == (k, r.value)
  {
    match IndexOf(d, k)
    case None => None
    case Some(i) => Some(d[i].1)
  }

  /** `d.get(k, default)`. */
  function GetOr<K(==,!new), V>(d: Dict<K, V>, k: K, default: V): (r: V)
    ensures IndexOf(d, k).None? ==> r == default
    ensures IndexOf(d, k).Some? ==> r == d[IndexOf(d, k).value].1
  {
    match Get(d, k)
    case Some(v) => v
    case None => default
  }

  /** With distinct keys, an item's value is what `Get` returns for its key. */
  lemma GetDistinct<K(!new), V>(d: Dict<K, V>, j: nat)
    requires DistinctKeys(d) && j < |d|
    ensures Get(d, d[j].0) == Some(d[j].1)
  {
    var i := IndexOf(d, d[j].0).value;
    assert i == j;
  }

  /** `d[k] = v`. */
  function Put<K(==,!new), V>(d: Dict<K, V>, k: K, v: V): (r: Dict<K, V>)
    requires DistinctKeys(d)
    ensures DistinctKeys(r)
    ensures Get(r, k) == Some(v)
    ensures forall k' :: k' != k ==> Get(r, k') == Get(d, k')
    ensures IndexOf(d, k).Some? ==> |r| == |d| && forall i :: 0 <= i < |d| ==> r[i].0 == d[i].0
    ensures IndexOf(d, k).None? ==> r == d + [(k, v)]
  {
    match IndexOf(d, k)
    case Some(i) =>
      var r := d[i := (k, v)];
      PutKeepsOthers(d, r, i, k);
      GetDistinct(r, i);
      r
    case None =>
      var r := d + [(k, v)];
      PutKeepsOthers(d, r, |d|, k);
      GetDistinct(r, |d|);
      r
  }

  /** Helper for Put: the items other than position i are those of d. */
  lemma PutKeepsOthers<K(!new), V>(d: Dict<K, V>, r: Dict<K, V>, i: nat, k: K)
    requires DistinctKeys(d) && DistinctKeys(r)
    requires i <= |d| && |r| == (if i < |d| then |d| else |d| + 1) && r[i].0 == k
    requires forall j :: 0 <= j < |d| && j != i ==> r[j] == d[j]
    requires i < |d| ==> d[i].0 == k
    ensures forall k' :: k' != k ==> Get(r, k') == Get(d, k')
  {
    forall k' | k' != k
      ensures Get(r, k') == Get(d, k')
    {
      match Get(d, k')
      case None =>
      case Some(v) =>
        var j :| 0 <= j < |d| && d[j] == (k', v);
        GetDistinct(r, j);
    }
  }

  /** The dict built by assigning the pairs one after the other,
      as the comprehension `{k: v for (k, v) in ps}` does. */
  function FromPairs<K(==,!new), V>(ps: seq<(K, V)>): (d: Dict<K, V>)
    ensures DistinctKeys(d)
  {
    if ps == [] then [] else Put(FromPairs(ps[..|ps| - 1]), ps[|ps| - 1].0, ps[|ps| - 1].1)
  }

  /** The value of the last pair whose key is `k`. */
  function LastValue<K(==,!new), V>(ps: seq<(K, V)>, k: K): (r: Option<V>)
    ensures r.None? <==> forall j :: 0 <= j < |ps| ==> ps[j].0 != k
    ensures r.Some? ==> exists j :: 0 <= j < |ps| && ps[j] == (k, r.value)
                                    && forall l :: j < l < |ps| ==> ps[l].0 != k
  {
    if ps == [] then None
    else if ps[|ps| - 1].0 == k then Some(ps[|ps| - 1].1)
    else LastValue(ps[..|ps| - 1], k)
  }

  /** A key assigned several times keeps the value of its last assignment. */
  lemma {:induction false} FromPairsGet<K(!new), V>(ps: seq<(K, V)>, k: K)
    ensures Get(FromPairs(ps), k) == LastValue(ps, k)
  {
    if ps != [] {
      FromPairsGet(ps[..|ps| - 1], k);
    }
  }

  lemma {:induction false} IndexOfAppend<K(!new), V>(p: seq<(K, V)>, x: (K, V), k: K)
    ensures IndexOf(p + [x], k) ==
            if IndexOf(p, k).Some? then IndexOf(p, k)
            else if x.0 == k then Some(|p|) else None
  {
    if p != [] {
      assert (p + [x])[1..] == p[1..] + [x];
      IndexOfAppend(p[1..], x, k);
    }
  }

  /** The keys of the dict are exactly the keys of the pairs, and they stand in the
      order of their FIRST assignment, however often they are reassigned later. */
  lemma {:induction false} FromPairsKeyOrder<K(!new), V>(ps: seq<(K, V)>)
    ensures forall k :: Get(FromPairs(ps), k).Some? <==> IndexOf(ps, k).Some?
    ensures forall i, j :: 0 <= i < j < |FromPairs(ps)| ==>
              IndexOf(ps, FromPairs(ps)[i].0).Some? && IndexOf(ps, FromPairs(ps)[j].0).Some? &&
              IndexOf(ps, FromPairs(ps)[i].0).value < IndexOf(ps, FromPairs(ps)[j].0).value
  {
    if ps != [] {
      var p, x := ps[..|ps| - 1], ps[|ps| - 1];
      assert ps == p + [x];
      FromPairsKeyOrder(p);
      var d', d := FromPairs(p), FromPairs(ps);
      forall k ensures IndexOf(ps, k) == if IndexOf(p, k).Some? then IndexOf(p, k)
                                          else if x.0 == k then Some(|p|) else None {
        IndexOfAppend(p, x, k);
      }
      forall i | 0 <= i < |d'|
        ensures d[i].0 == d'[i].0 && IndexOf(p, d'[i].0).Some?
      {
        GetDistinct(d', i);
      }
      if IndexOf(d', x.0).None? {
        assert d == d' + [x];
      } else {
        assert IndexOf(p, x.0).Some? by {
          var i := IndexOf(d', x.0).value;
          GetDistinct(d', i);
        }
      }
      forall i, j | 0 <= i < j < |d|
        ensures IndexOf(ps, d[i].0).Some? && IndexOf(ps, d[j].0).Some?
        ensures IndexOf(ps, d[i].0).value < IndexOf(ps, d[j].0).value
      {
        if j == |d'| {
          assert IndexOf(ps, d[j].0) == Some(|p|);
        }
      }
    } else {
      assert FromPairs(ps) == [];
    }
  }

  /** Index of the item `max(d.items(), key=lambda x: x[1])` returns: the first
      item whose value is maximal. */
  function MaxIndex<K>(d: seq<(K, real)>): (m: nat)
    requires |d| > 0
    ensures m < |d|
    ensures forall j :: 0 <= j < |d| ==> d[j].1 <= d[m].1
    ensures forall j :: 0 <= j < m ==> d[j].1 < d[m].1
  {
    if |d| == 1 then 0
    else
      var m := MaxIndex(d[..|d| - 1]);
      if d[|d| - 1].1 > d[m].1 then |d| - 1 else m
  }

  function MaxItem<K>(d: seq<(K, real)>): (K, real)
    requires |d| > 0
  {
    d[MaxIndex(d)]
  }
}
