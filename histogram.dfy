/**
 The histogram accumulator: a map from n-gram to occurrence count, as the
 `unordered_map<string, int>` of the program. A key the map does not hold
 reads as 0, like `hist[key]` does before the first increment.
 */
module Histogram {

  type Hist = map<string, nat>

  /** The count of `k` in `h`; 0 for an absent key. */
  function Count(h: Hist, k: string): nat
  {
    if k in h then h[k] else 0
  }

  /** `hist[key]++`: the key is present afterwards and only its count changes. */
  function Increment(h: Hist, k: string): (r: Hist)
    ensures r.Keys == h.Keys + {k}
    ensures Count(r, k) == Count(h, k) + 1
    ensures forall k' :: k' != k ==> Count(r, k') == Count(h, k')
  {
    h[k := Count(h, k) + 1]
  }

  /** The histogram after `hist[key]++` for every key of `ks`, in order. */
  function AddKeys(h: Hist, ks: seq<string>): Hist
  {
    if ks == [] then h else Increment(AddKeys(h, ks[..|ks| - 1]), ks[|ks| - 1])
  }

  /** One more key is one more increment. */
  lemma AddKeysSnoc(h: Hist, ks: seq<string>, x: string)
    ensures AddKeys(h, ks + [x]) == Increment(AddKeys(h, ks), x)
  {
    assert (ks + [x])[..|ks|] == ks;
  }

  /**
   The histogram `h` with the bag `b` of occurrences added to it: the keys of
   either, each counted in `h` plus in `b`.
   */
  function AddBag(h: Hist, b: multiset<string>): Hist
  {
    map k | k in h.Keys + (set x | x in b) :: Count(h, k) + b[k]
  }

  /** The empty histogram with the bag `b` counted into it. */
  function Tally(b: multiset<string>): Hist
  {
    AddBag(map[], b)
  }

  /** One more increment adds one more occurrence to the bag. */
  lemma AddBagIncrement(h: Hist, b: multiset<string>, x: string)
    ensures Increment(AddBag(h, b), x) == AddBag(h, b + multiset{x})
  {
    var inc, after := Increment(AddBag(h, b), x), AddBag(h, b + multiset{x});
    assert inc.Keys == after.Keys by {
      assert (set y | y in b + multiset{x}) == (set y | y in b) + {x};
    }
    forall k | k in after ensures inc[k] == after[k] {
      assert Count(inc, k) == Count(AddBag(h, b), k) + (if k == x then 1 else 0);
    }
  }

  /** Adding keys one increment at a time adds exactly the bag of those keys. */
  lemma {:induction false} AddKeysIsAddBag(h: Hist, ks: seq<string>)
    ensures AddKeys(h, ks) == AddBag(h, multiset(ks))
  {
    if ks == [] {
      assert AddBag(h, multiset{}) == h;
    } else {
      var ks', x := ks[..|ks| - 1], ks[|ks| - 1];
      assert ks == ks' + [x];
      AddKeysIsAddBag(h, ks');
      AddBagIncrement(h, multiset(ks'), x);
    }
  }

  /**
   What AddKeys does to each key: its count rises by the number of its
   occurrences in `ks`, a key that is not in `ks` is left as it was, and the
   new keys are exactly those of `ks`.
   */
  lemma AddKeysCounts(h: Hist, ks: seq<string>)
    ensures AddKeys(h, ks).Keys == h.Keys + set k | k in ks
    ensures forall k :: Count(AddKeys(h, ks), k) == Count(h, k) + multiset(ks)[k]
  {
    AddKeysIsAddBag(h, ks);
  }

  /** AddKeys seen from one key: its count rises by its number of occurrences in `ks`. */
  lemma AddKeysCount(h: Hist, ks: seq<string>, k: string)
    ensures Count(AddKeys(h, ks), k) == Count(h, k) + multiset(ks)[k]
  {
    AddKeysCounts(h, ks);
  }

  /** A key that AddKeys adds and that was not there before is one of `ks`. */
  lemma NewKeysFrom(h: Hist, ks: seq<string>)
    ensures forall k :: k in AddKeys(h, ks) && k !in h ==> k in ks
  {
    AddKeysCounts(h, ks);
  }

  /** The result of AddKeys depends only on the multiset of keys, not on their order. */
  lemma AddKeysOrderFree(h: Hist, ks1: seq<string>, ks2: seq<string>)
    requires multiset(ks1) == multiset(ks2)
    ensures AddKeys(h, ks1) == AddKeys(h, ks2)
  {
    AddKeysIsAddBag(h, ks1);
    AddKeysIsAddBag(h, ks2);
  }

  /** Adding two bags one after the other adds their sum. */
  lemma AddBagTwice(h: Hist, a: multiset<string>, b: multiset<string>)
    ensures AddBag(AddBag(h, a), b) == AddBag(h, a + b)
  {
    var lhs, rhs := AddBag(AddBag(h, a), b), AddBag(h, a + b);
    assert lhs.Keys == rhs.Keys;
    assert forall k :: k in lhs ==> lhs[k] == rhs[k];
  }

  /** Incrementing the keys of `a` and then those of `b` is incrementing those of `a + b`. */
  lemma AddKeysAppend(h: Hist, a: seq<string>, b: seq<string>)
    ensures AddKeys(AddKeys(h, a), b) == AddKeys(h, a + b)
  {
    AddKeysIsAddBag(h, a);
    AddKeysIsAddBag(AddKeys(h, a), b);
    AddKeysIsAddBag(h, a + b);
    AddBagTwice(h, multiset(a), multiset(b));
  }

  /**
   The merge `for (entry : src) dst[entry.first] += entry.second`, as a value:
   the union of the keys, each count the sum of the two.
   */
  function Merge(dst: Hist, src: Hist): Hist
  {
    map k | k in dst.Keys + src.Keys :: Count(dst, k) + Count(src, k)
  }

  /**
   The merge loop of the program. It visits the entries of `src` in an order
   the map does not specify (`:|` picks any remaining key) and adds each count
   to `dst`.
   */
  method MergeInto(dst: Hist, src: Hist) returns (r: Hist)
    ensures r.Keys == dst.Keys + src.Keys
    ensures forall k :: Count(r, k) == Count(dst, k) + Count(src, k)
    ensures r == Merge(dst, src)
  {
    r := dst;
    var rest := src.Keys;
    while rest != {}
      invariant rest <= src.Keys
      invariant r.Keys == dst.Keys + (src.Keys - rest)
      invariant forall k :: Count(r, k) == Count(dst, k) + (if k in rest then 0 else Count(src, k))
      decreases rest
    {
      var k :| k in rest;
      r := r[k := Count(r, k) + src[k]];
      rest := rest - {k};
    }
    assert r.Keys == Merge(dst, src).Keys;
  }

  /** Merging two worker histograms into an empty one gives the same result in either order. */
  lemma MergeCommutes(h1: Hist, h2: Hist)
    ensures Merge(Merge(map[], h1), h2) == Merge(Merge(map[], h2), h1)
  {
    var lhs, rhs := Merge(Merge(map[], h1), h2), Merge(Merge(map[], h2), h1);
    assert lhs.Keys == rhs.Keys;
  }

  /** Merging is associative, so the grouping of successive merges does not matter. */
  lemma MergeAssociates(a: Hist, b: Hist, c: Hist)
    ensures Merge(Merge(a, b), c) == Merge(a, Merge(b, c))
  {
    var lhs, rhs := Merge(Merge(a, b), c), Merge(a, Merge(b, c));
    assert lhs.Keys == rhs.Keys;
  }

  /** Merging an empty histogram changes nothing. */
  lemma MergeEmpty(h: Hist)
    ensures Merge(h, map[]) == h && Merge(map[], h) == h
  {
    assert Merge(h, map[]).Keys == h.Keys;
    assert Merge(map[], h).Keys == h.Keys;
  }

  /** Merging the tally of a bag is adding the bag. */
  lemma MergeTally(h: Hist, b: multiset<string>)
    ensures Merge(h, Tally(b)) == AddBag(h, b)
  {
    var lhs, rhs := Merge(h, Tally(b)), AddBag(h, b);
    assert lhs.Keys == rhs.Keys;
    assert forall k :: k in lhs ==> lhs[k] == rhs[k];
  }

  /** The sum of all counts (the "total" the benchmark prints). */
  ghost function Total(h: Hist): nat
    decreases |h|
  {
    if h == map[] then 0
    else
      var k :| k in h;
      assert |h - {k}| < |h| by { assert (h - {k}).Keys == h.Keys - {k}; }
      h[k] + Total(h - {k})
  }

  /** Total does not depend on which key is taken out first. */
  lemma {:induction false} TotalRemove(h: Hist, k: string)
    requires k in h
    ensures Total(h) == h[k] + Total(h - {k})
    decreases |h|
  {
    var j :| j in h && Total(h) == h[j] + Total(h - {j});
    if j != k {
      assert (h - {j}).Keys == h.Keys - {j} && (h - {k}).Keys == h.Keys - {k};
      TotalRemove(h - {j}, k);
      TotalRemove(h - {k}, j);
      assert h - {j} - {k} == h - {k} - {j};
    }
  }

  /** Setting the count of one key changes the total by the difference. */
  lemma TotalUpdate(h: Hist, k: string, v: nat)
    ensures Total(h[k := v]) == Total(h) - Count(h, k) + v
  {
    var r := h[k := v];
    TotalRemove(r, k);
    assert r - {k} == h - {k};
    if k in h {
      TotalRemove(h, k);
    } else {
      assert h - {k} == h;
    }
  }

  /** Each `hist[key]++` adds one to the total: AddKeys adds `|ks|`. */
  lemma {:induction false} TotalAddKeys(h: Hist, ks: seq<string>)
    ensures Total(AddKeys(h, ks)) == Total(h) + |ks|
  {
    if ks != [] {
      var ks', x := ks[..|ks| - 1], ks[|ks| - 1];
      TotalAddKeys(h, ks');
      TotalUpdate(AddKeys(h, ks'), x, Count(AddKeys(h, ks'), x) + 1);
    }
  }

  /** Merging `src` is merging `src` without `k`, then setting the count of `k`. */
  lemma MergeLastKey(dst: Hist, src: Hist, k: string)
    requires k in src
    ensures Merge(dst, src) == Merge(dst, src - {k})[k := Count(dst, k) + src[k]]
  {
    var m, m' := Merge(dst, src), Merge(dst, src - {k})[k := Count(dst, k) + src[k]];
    assert m.Keys == m'.Keys;
    forall j | j in m ensures m[j] == m'[j] {
      if j != k { assert Count(src, j) == Count(src - {k}, j); }
    }
  }

  /** The total of a merge is the sum of the totals. */
  lemma {:induction false} TotalMerge(dst: Hist, src: Hist)
    ensures Total(Merge(dst, src)) == Total(dst) + Total(src)
    decreases |src|
  {
    if src == map[] {
      MergeEmpty(dst);
      assert Total(src) == 0;
    } else {
      var k :| k in src;
      var src' := src - {k};
      assert src'.Keys == src.Keys - {k};
      TotalMerge(dst, src');
      TotalMergeStep(dst, src, k);
    }
  }

  /** One step of TotalMerge: putting the count of `k` back into the merge. */
  lemma TotalMergeStep(dst: Hist, src: Hist, k: string)
    requires k in src
    requires Total(Merge(dst, src - {k})) == Total(dst) + Total(src - {k})
    ensures Total(Merge(dst, src)) == Total(dst) + Total(src)
  {
    var m', v := Merge(dst, src - {k}), Count(dst, k) + src[k];
    assert Count(m', k) == Count(dst, k);
    assert Merge(dst, src) == m'[k := v] by { MergeLastKey(dst, src, k); }
    assert Total(m'[k := v]) == Total(m') - Count(dst, k) + v by { TotalUpdate(m', k, v); }
    TotalRemove(src, k);
  }
}
