/** Sequence facts shared by the scrapers: first-occurrence deduplication, keeping present values. */
module Seqs {
  import opened Wrappers

  predicate Distinct<T(==)>(d: seq<T>) {
    forall i, j :: 0 <= i < j < |d| ==> d[i] != d[j]
  }

  /**
   * Each element once, at its first occurrence: what a `seen` set lets
   * through, and what `list({key(r): r for r in rows}.values())` keeps when
   * the key is the whole row.
   */
  function Dedup<T(==)>(s: seq<T>): seq<T>
  {
    if s == [] then []
    else
      var init := s[..|s| - 1];
      if s[|s| - 1] in init then Dedup(init) else Dedup(init) + [s[|s| - 1]]
  }

  /** Deduplication keeps exactly the elements of the list, each once. */
  lemma {:induction false} DedupSpec<T>(s: seq<T>)
    ensures Distinct(Dedup(s))
    ensures forall x :: x in Dedup(s) <==> x in s
  {
    if s != [] {
      var init := s[..|s| - 1];
      DedupSpec(init);
      assert s == init + [s[|s| - 1]];
    }
  }

  /** Deduplicating a list without repeats gives the list back. */
  lemma {:induction false} DedupOfDistinct<T>(s: seq<T>)
    requires Distinct(s)
    ensures Dedup(s) == s
  {
    if s != [] {
      var init := s[..|s| - 1];
      assert Distinct(init);
      DedupOfDistinct(init);
      assert s == init + [s[|s| - 1]];
    }
  }

  /** Deduplicating `a + b` deduplicates `a`, then appends what `b` adds that is new. */
  lemma {:induction false} DedupAppend<T>(a: seq<T>, x: T)
    ensures Dedup(a + [x]) == if x in a then Dedup(a) else Dedup(a) + [x]
  {
    assert (a + [x])[..|a + [x]| - 1] == a;
  }

  /** A list without repeats has as many elements as its set. */
  lemma {:induction false} DistinctCard<T(!new)>(d: seq<T>)
    requires Distinct(d)
    ensures |set x | x in d| == |d|
  {
    if d != [] {
      var init := d[..|d| - 1];
      assert Distinct(init);
      DistinctCard(init);
      assert (set x | x in d) == (set x | x in init) + {d[|d| - 1]};
      assert d[|d| - 1] !in (set x | x in init);
    }
  }

  /** The deduplicated list is as long as the number of distinct elements. */
  lemma DedupLength<T(!new)>(s: seq<T>)
    ensures |Dedup(s)| == |set x | x in s|
  {
    DedupSpec(s);
    DistinctCard(Dedup(s));
    assert (set x | x in Dedup(s)) == (set x | x in s);
  }

  /** The values of the `Some` entries, in order: what a loop that skips failures collects. */
  function Present<T>(o: seq<Option<T>>): (r: seq<T>)
    ensures |r| <= |o|
  {
    if o == [] then []
    else
      var n := |o| - 1;
      if o[n].Some? then Present(o[..n]) + [o[n].value] else Present(o[..n])
  }

  /** One more entry adds its value, if it has one. */
  lemma PresentSnoc<T>(o: seq<Option<T>>, x: Option<T>)
    ensures Present(o + [x]) == if x.Some? then Present(o) + [x.value] else Present(o)
  {
    assert (o + [x])[..|o|] == o;
  }

  /** Collecting two runs of entries collects the first run's values, then the second's. */
  lemma {:induction false} PresentAppend<T>(a: seq<Option<T>>, b: seq<Option<T>>)
    ensures Present(a + b) == Present(a) + Present(b)
    decreases |b|
  {
    if b == [] {
      assert a + b == a;
    } else {
      var n := |b| - 1;
      PresentAppend(a, b[..n]);
      assert (a + b)[..|a + b| - 1] == a + b[..n];
      assert (a + b)[|a + b| - 1] == b[n];
    }
  }

  /** Every collected value is the value of some entry. */
  lemma {:induction false} PresentSound<T>(o: seq<Option<T>>, k: nat)
    requires k < |Present(o)|
    ensures exists i :: 0 <= i < |o| && o[i] == Some(Present(o)[k])
  {
    var n := |o| - 1;
    if k < |Present(o[..n])| {
      PresentSound(o[..n], k);
      var i :| 0 <= i < n && o[..n][i] == Some(Present(o[..n])[k]);
      assert o[i] == o[..n][i];
    } else {
      assert o[n] == Some(Present(o)[k]);
    }
  }

  /** No entry's value is lost. */
  lemma {:induction false} PresentComplete<T>(o: seq<Option<T>>, i: nat)
    requires i < |o| && o[i].Some?
    ensures o[i].value in Present(o)
  {
    var n := |o| - 1;
    if i < n {
      assert o[..n][i] == o[i];
      PresentComplete(o[..n], i);
    }
  }

  /** Taking one more entry of `o` adds its value, if it has one. */
  lemma PresentPrefix<T>(o: seq<Option<T>>, i: nat)
    requires i < |o|
    ensures Present(o[..i + 1]) == if o[i].Some? then Present(o[..i]) + [o[i].value] else Present(o[..i])
  {
    assert o[..i + 1] == o[..i] + [o[i]];
    PresentSnoc(o[..i], o[i]);
  }

  /** All of `o` is its prefix of full length. */
  lemma PresentAll<T>(o: seq<Option<T>>)
    ensures Present(o[..|o|]) == Present(o)
  {
    assert o[..|o|] == o;
  }

  /** Collecting a first entry, then the rest. */
  lemma PresentCons<T>(x: Option<T>, o: seq<Option<T>>)
    ensures Present([x] + o) == (if x.Some? then [x.value] else []) + Present(o)
  {
    PresentAppend([x], o);
    assert [x][..0] == [];
  }

  /** The runs of `ss` one after another. */
  function Concat<T>(ss: seq<seq<T>>): (r: seq<T>)
    ensures ss == [] ==> r == []
  {
    if ss == [] then [] else ss[0] + Concat(ss[1..])
  }

  /** A prefix extended by the slice that follows it. */
  lemma PrefixSlice<T>(s: seq<T>, i: nat, j: nat)
    requires i <= j <= |s|
    ensures s[..j] == s[..i] + s[i..j]
  {
  }

  /** The prefix of a prefix. */
  lemma PrefixPrefix<T>(s: seq<T>, i: nat, j: nat)
    requires i <= j <= |s|
    ensures s[..j][..i] == s[..i]
  {
  }

  /** The prefix of full length. */
  lemma PrefixAll<T>(s: seq<T>)
    ensures s[..|s|] == s
  {
  }

  /** A suffix that starts with `x` followed by `rest`. */
  lemma SuffixCons<T>(s: seq<T>, k: nat, x: T, rest: seq<T>)
    requires k <= |s| && s[k..] == [x] + rest
    ensures k < |s| && s[k] == x && s[k + 1..] == rest
  {
    assert s[k..][0] == x;
    assert s[k..][1..] == rest;
  }
}
