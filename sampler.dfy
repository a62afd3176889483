/**
 * Choosing the training sampler. With a non-empty list of aspect-ratio bins,
 * each dataset item's aspect ratio (height / width) is quantized to a group
 * id, `bisect_right(sorted(bins), ratio)`, and a grouped sampler batches items
 * of one group together. With no bins, plain random sampling that drops the
 * last partial batch is used. Either sampler is wrapped in the `Infinite`
 * constructor.
 * The ratios are given here; reading them from the dataset is not modelled.
 */
module Sampler {
  import opened Bisect

  /** Inserts `x` into a sorted sequence before the first element >= x. */
  function Insert(x: real, s: seq<real>): (r: seq<real>)
    requires Sorted(s)
    ensures Sorted(r)
    ensures |r| == |s| + 1 && (r[0] == x || (|s| > 0 && r[0] == s[0]))
  {
    if s == [] then [x]
    else if x <= s[0] then
      [x] + s
    else
      var tail := s[1..];
      assert s == [s[0]] + tail;
      assert Sorted(tail) by {
        forall i, j | 0 <= i < j < |tail| ensures tail[i] <= tail[j] {
          assert tail[i] == s[i + 1] && tail[j] == s[j + 1];
        }
      }
      var rest := Insert(x, tail);
      assert s[0] <= rest[0];
      var r := [s[0]] + rest;
      assert Sorted(r) by {
        forall i, j | 0 <= i < j < |r| ensures r[i] <= r[j] {
          if i == 0 {
            assert rest[0] <= rest[j - 1];
          } else {
            assert r[i] == rest[i - 1] && r[j] == rest[j - 1];
          }
        }
      }
      r
  }

  /** Inserting adds the element exactly once and loses nothing. */
  lemma {:induction false} InsertPermutes(x: real, s: seq<real>)
    requires Sorted(s)
    ensures multiset(Insert(x, s)) == multiset(s) + multiset{x}
  {
    if s != [] && !(x <= s[0]) {
      var tail := s[1..];
      assert s == [s[0]] + tail;
      InsertPermutes(x, tail);
      assert Insert(x, s) == [s[0]] + Insert(x, tail);
    }
  }

  /** Inserting `x` adds one to the count of every probe at or above it. */
  lemma {:induction false} InsertCount(x: real, s: seq<real>, y: real)
    requires Sorted(s)
    ensures CountLe(Insert(x, s), y) == CountLe(s, y) + (if x <= y then 1 else 0)
  {
    var r := Insert(x, s);
    if s == [] {
    } else if x <= s[0] {
      assert r[1..] == s;
    } else {
      var rest := Insert(x, s[1..]);
      assert r[1..] == rest;
      InsertCount(x, s[1..], y);
    }
  }

  /** Python's `sorted`: an ordered permutation of the input. */
  function Sort(s: seq<real>): (r: seq<real>)
    ensures Sorted(r)
    ensures multiset(r) == multiset(s)
  {
    if s == [] then []
    else
      assert s == [s[0]] + s[1..];
      InsertPermutes(s[0], Sort(s[1..]));
      Insert(s[0], Sort(s[1..]))
  }

  /** Sorting keeps the count of elements <= any probe. */
  lemma {:induction false} SortCount(s: seq<real>, y: real)
    ensures CountLe(Sort(s), y) == CountLe(s, y)
  {
    if s != [] {
      SortCount(s[1..], y);
      InsertCount(s[0], Sort(s[1..]), y);
    }
  }

  /**
   * `_quantize(ratios, bins)`: the group id of each ratio is
   * `bisect_right(sorted(bins), ratio)`, which on the sorted bins is the
   * number of bins <= the ratio; sorting does not change that count, so it is
   * the number of bins <= the ratio in the order given.
   */
  function Quantize(ratios: seq<real>, bins: seq<real>): (ids: seq<nat>)
    ensures |ids| == |ratios|
    ensures forall i :: 0 <= i < |ids| ==> ids[i] == CountLe(bins, ratios[i]) && ids[i] <= |bins|
  {
    seq(|ratios|, i requires 0 <= i < |ratios| => GroupId(ratios[i], bins))
  }

  /** The mapped lambda, `bisect_right(sorted(bins), y)`. */
  function GroupId(y: real, bins: seq<real>): (g: nat)
    ensures g == CountLe(bins, y) && g <= |bins|
  {
    var sortedBins := Sort(bins);
    BisectSearchSplits(sortedBins, y);
    CountLeMultiset(sortedBins, bins, y);
    BisectSearch(sortedBins, y)
  }

  /** A larger ratio never gets a smaller group id. */
  lemma QuantizeMonotone(ratios: seq<real>, bins: seq<real>, i: nat, j: nat)
    requires i < |ratios| && j < |ratios|
    requires ratios[i] <= ratios[j]
    ensures Quantize(ratios, bins)[i] <= Quantize(ratios, bins)[j]
  {
    CountLeMonotone(bins, ratios[i], ratios[j]);
  }

  /** The order the bins are listed in does not matter. */
  lemma QuantizeIgnoresBinOrder(ratios: seq<real>, bins: seq<real>, bins': seq<real>)
    requires multiset(bins) == multiset(bins')
    ensures Quantize(ratios, bins) == Quantize(ratios, bins')
  {
    var q, q' := Quantize(ratios, bins), Quantize(ratios, bins');
    forall i | 0 <= i < |ratios| ensures q[i] == q'[i] {
      CountLeMultiset(bins, bins', ratios[i]);
    }
  }

  /** The count of elements <= x depends only on the multiset of elements. */
  lemma CountLeMultiset(a: seq<real>, b: seq<real>, x: real)
    requires multiset(a) == multiset(b)
    ensures CountLe(a, x) == CountLe(b, x)
  {
    SortCount(a, x);
    SortCount(b, x);
    SortedUnique(Sort(a), Sort(b));
  }

  /** Two sorted sequences with the same elements are equal. */
  lemma {:induction false} SortedUnique(a: seq<real>, b: seq<real>)
    requires Sorted(a) && Sorted(b)
    requires multiset(a) == multiset(b)
    ensures a == b
  {
    if a == [] {
      assert |multiset(b)| == 0;
    } else {
      assert a[0] in multiset(b);
      var a0, b0 := a[0], b[0];
      var ta, tb := a[1..], b[1..];
      assert a == [a0] + ta && b == [b0] + tb;
      SortedHeadIsMin(a, b);
      SortedHeadIsMin(b, a);
      assert multiset(a) == multiset{a0} + multiset(ta);
      assert multiset(b) == multiset{a0} + multiset(tb);
      forall v ensures multiset(ta)[v] == multiset(tb)[v] {
        assert multiset(a)[v] == multiset(b)[v];
      }
      assert multiset(ta) == multiset(tb);
      SortedUnique(ta, tb);
    }
  }

  /** The head of a sorted sequence is <= every element, in particular b's head. */
  lemma SortedHeadIsMin(a: seq<real>, b: seq<real>)
    requires Sorted(a) && a != [] && b != []
    requires multiset(a) == multiset(b)
    ensures a[0] <= b[0]
  {
    assert b[0] in multiset(a);
    var j :| 0 <= j < |a| && a[j] == b[0];
  }

  /** The inner batch sampler. */
  datatype BatchSampler =
    | RandomSampler(batchSize: int, dropLast: bool)
    | GroupedRandomSampler(batchSize: int, groupIds: seq<nat>)

  /** `Infinite(...)`, wrapped around the chosen batch sampler. */
  datatype InfiniteSampler = Infinite(inner: BatchSampler)

  /** `build_dataloader` passes no grouping, so the default single bin 1 is used. */
  const DEFAULT_GROUPING: seq<real> := [1.0]

  /**
   * `build_sampler(dataset, batch_size, aspect_grouping)` given the dataset's
   * aspect ratios: no bins means random sampling with `drop_last=True`;
   * otherwise a grouped sampler over the quantized ratios.
   */
  function BuildSampler(ratios: seq<real>, batchSize: int, aspectGrouping: seq<real>): (s: InfiniteSampler)
    ensures s.inner.batchSize == batchSize
    ensures s.inner.RandomSampler? <==> |aspectGrouping| == 0
    ensures s.inner.RandomSampler? ==> s.inner.dropLast
    ensures s.inner.GroupedRandomSampler? ==>
      && |s.inner.groupIds| == |ratios|
      && forall i :: 0 <= i < |ratios| ==>
           s.inner.groupIds[i] == CountLe(aspectGrouping, ratios[i]) <= |aspectGrouping|
  {
    if |aspectGrouping| == 0 then
      Infinite(RandomSampler(batchSize, true))
    else
      Infinite(GroupedRandomSampler(batchSize, Quantize(ratios, aspectGrouping)))
  }

  /** With the default bin, ratios below 1 form group 0 and the others group 1. */
  lemma DefaultGroupingSplitsAtOne(ratios: seq<real>, batchSize: int, i: nat)
    requires i < |ratios|
    ensures BuildSampler(ratios, batchSize, DEFAULT_GROUPING).inner.groupIds[i]
      == if ratios[i] < 1.0 then 0 else 1
  {
    assert DEFAULT_GROUPING[1..] == [];
  }
}
