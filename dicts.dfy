/**
 * Python dictionaries as insertion-ordered sequences of (key, value) items.
 * A dictionary the program builds never holds a key twice (`DistinctKeys`);
 * assigning to a present key keeps its position, a new key goes to the end.
 */
module Dicts {
  import opened Wrappers

  predicate DistinctKeys<K(==), V>(d: seq<(K, V)>) {
    forall i, j :: 0 <= i < j < |d| ==> d[i].0 != d[j].0
  }

  predicate HasKey<K(==), V>(d: seq<(K, V)>, k: K) {
    exists i :: 0 <= i < |d| && d[i].0 == k
  }

  /** `d.get(k)`: the value stored under `k`, if any. */
  function Get<K(==,!new), V>(d: seq<(K, V)>, k: K): (r: Option<V>)
    ensures r.None? <==> !HasKey(d, k)
    ensures r.Some? ==> exists i :: 0 <= i < |d| && d[i] == (k, r.value)
  {
    if d == [] then None
    else if d[0].0 == k then Some(d[0].1)
    else
      var r := Get(d[1..], k);
      assert r.Some? ==> exists i :: 0 <= i < |d[1..]| && d[1..][i] == (k, r.value);
      assert HasKey(d[1..], k) ==> HasKey(d, k) by {
        if HasKey(d[1..], k) {
          var i :| 0 <= i < |d[1..]| && d[1..][i].0 == k;
          assert d[i + 1].0 == k;
        }
      }
      assert HasKey(d, k) ==> HasKey(d[1..], k) by {
        if HasKey(d, k) {
          var i :| 0 <= i < |d| && d[i].0 == k;
          assert i > 0 && d[1..][i - 1].0 == k;
        }
      }
      r
  }

  /** `d[k] = v`: the value of a present key is replaced in place, a new key is appended. */
  function Set<K(==,!new), V>(d: seq<(K, V)>, k: K, v: V): (r: seq<(K, V)>)
    ensures HasKey(d, k) ==> |r| == |d|
    ensures !HasKey(d, k) ==> r == d + [(k, v)]
  {
    if d == [] then [(k, v)]
    else if d[0].0 == k then [(k, v)] + d[1..]
    else
      assert HasKey(d[1..], k) <==> HasKey(d, k) by {
        assert Get(d, k) == Get(d[1..], k);
      }
      [d[0]] + Set(d[1..], k, v)
  }

  /** After `d[k] = v`, `k` holds `v` and every other key holds what it held before. */
  lemma {:induction false} SetGet<K(!new), V>(d: seq<(K, V)>, k: K, v: V, k': K)
    ensures Get(Set(d, k, v), k') == if k' == k then Some(v) else Get(d, k')
  {
    if d != [] && d[0].0 != k {
      var r := Set(d, k, v);
      assert r[1..] == Set(d[1..], k, v);
      SetGet(d[1..], k, v, k');
    }
  }

  /** `d[k] = v` keeps every key where it was and adds no duplicate key. */
  lemma {:induction false} SetKeys<K(!new), V>(d: seq<(K, V)>, k: K, v: V)
    ensures HasKey(d, k) ==> forall i :: 0 <= i < |d| ==> Set(d, k, v)[i].0 == d[i].0
    ensures DistinctKeys(d) ==> DistinctKeys(Set(d, k, v))
  {
    if d != [] && d[0].0 != k {
      var r := Set(d, k, v);
      var tail := Set(d[1..], k, v);
      assert r == [d[0]] + tail;
      assert HasKey(d[1..], k) <==> HasKey(d, k) by {
        assert Get(d, k) == Get(d[1..], k);
      }
      SetKeys(d[1..], k, v);
      if DistinctKeys(d) {
        assert DistinctKeys(d[1..]);
        assert !HasKey(d[1..], d[0].0);
        assert !HasKey(tail, d[0].0) by {
          SetGet(d[1..], k, v, d[0].0);
        }
      }
    }
  }

  /** Every item of `d[k] = v` is an item of `d` or the new item `(k, v)`. */
  lemma {:induction false} SetItems<K(!new), V>(d: seq<(K, V)>, k: K, v: V)
    ensures forall i :: 0 <= i < |Set(d, k, v)| ==> Set(d, k, v)[i] in d || Set(d, k, v)[i] == (k, v)
  {
    if d != [] && d[0].0 != k {
      var tail := Set(d[1..], k, v);
      assert Set(d, k, v) == [d[0]] + tail;
      SetItems(d[1..], k, v);
      forall i | 0 <= i < |tail|
        ensures tail[i] in d || tail[i] == (k, v)
      {
        assert tail[i] in d[1..] ==> tail[i] in d;
      }
    }
  }

  /** `dict(pairs)`: later pairs overwrite earlier ones, first occurrences fix the order. */
  function FromPairs<K(==,!new), V>(pairs: seq<(K, V)>): (d: seq<(K, V)>)
    ensures DistinctKeys(d)
  {
    if pairs == [] then []
    else
      var last := pairs[|pairs| - 1];
      var init := FromPairs(pairs[..|pairs| - 1]);
      SetKeys(init, last.0, last.1);
      Set(init, last.0, last.1)
  }

  /** The value of the last pair whose key is `k`. */
  function LastValue<K(==,!new), V>(pairs: seq<(K, V)>, k: K): Option<V> {
    if pairs == [] then None
    else if pairs[|pairs| - 1].0 == k then Some(pairs[|pairs| - 1].1)
    else LastValue(pairs[..|pairs| - 1], k)
  }

  /** In `dict(pairs)` every key maps to the value of its last pair. */
  lemma {:induction false} FromPairsLastWins<K(!new), V>(pairs: seq<(K, V)>, k: K)
    ensures Get(FromPairs(pairs), k) == LastValue(pairs, k)
  {
    if pairs != [] {
      var last := pairs[|pairs| - 1];
      FromPairsLastWins(pairs[..|pairs| - 1], k);
      SetGet(FromPairs(pairs[..|pairs| - 1]), last.0, last.1, k);
    }
  }

  /** Assigning the value a key already holds changes nothing. */
  lemma {:induction false} SetExisting<K(!new), V>(d: seq<(K, V)>, k: K, v: V)
    requires DistinctKeys(d) && Get(d, k) == Some(v)
    ensures Set(d, k, v) == d
  {
    if d != [] && d[0].0 != k {
      assert DistinctKeys(d[1..]);
      SetExisting(d[1..], k, v);
    }
  }

  /** A dictionary rebuilt from its own items is itself. */
  lemma {:induction false} FromPairsOfDict<K(!new), V>(d: seq<(K, V)>)
    requires DistinctKeys(d)
    ensures FromPairs(d) == d
  {
    if d != [] {
      var init := d[..|d| - 1];
      var last := d[|d| - 1];
      assert DistinctKeys(init);
      FromPairsOfDict(init);
      assert !HasKey(init, last.0);
      assert d == init + [last];
    }
  }

  /** `dict(pairs)` has at most one item per pair. */
  lemma {:induction false} FromPairsSize<K(!new), V>(pairs: seq<(K, V)>)
    ensures |FromPairs(pairs)| <= |pairs|
  {
    if pairs != [] {
      FromPairsSize(pairs[..|pairs| - 1]);
    }
  }
}
