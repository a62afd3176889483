/**
 * Right-side binary search (Python's `bisect.bisect_right`) over a sequence
 * of numbers, specified by the number of elements that are <= the probe.
 * Both the learning-rate decay stages and the aspect-ratio bins are searched
 * with it.
 */
module Bisect {

  /** Non-decreasing order, the order `bisect_right` expects of its list. */
  predicate Sorted(s: seq<real>) {
    forall i, j :: 0 <= i < j < |s| ==> s[i] <= s[j]
  }

  /** The number of elements of `s` that are <= `x`. */
  function CountLe(s: seq<real>, x: real): (n: nat)
    ensures n <= |s|
  {
    if s == [] then 0 else (if s[0] <= x then 1 else 0) + CountLe(s[1..], x)
  }

  /** A prefix of elements <= x followed by elements > x pins the count down. */
  lemma {:induction false} CountLeOfPartition(s: seq<real>, x: real, r: nat)
    requires r <= |s|
    requires forall i :: 0 <= i < r ==> s[i] <= x
    requires forall i :: r <= i < |s| ==> x < s[i]
    ensures CountLe(s, x) == r
  {
    if s != [] {
      var r' := if r == 0 then 0 else r - 1;
      forall i | 0 <= i < r' ensures s[1..][i] <= x {
        assert s[1..][i] == s[i + 1];
      }
      forall i | r' <= i < |s| - 1 ensures x < s[1..][i] {
        assert s[1..][i] == s[i + 1];
      }
      CountLeOfPartition(s[1..], x, r');
    }
  }

  /** Raising the probe never lowers the count. */
  lemma {:induction false} CountLeMonotone(s: seq<real>, x: real, y: real)
    requires x <= y
    ensures CountLe(s, x) <= CountLe(s, y)
  {
    if s != [] {
      CountLeMonotone(s[1..], x, y);
    }
  }

  /**
   * In a sorted sequence the count exceeds `i` exactly when element `i` is
   * <= the probe: an element equal to the probe is counted.
   */
  lemma {:induction false} CountLeExceedsIndex(s: seq<real>, x: real, i: nat)
    requires Sorted(s)
    requires i < |s|
    ensures CountLe(s, x) > i <==> s[i] <= x
  {
    var r := if s[i] <= x then i + 1 else i;
    if s[i] <= x {
      // find the first element > x at or after i + 1
      var k := i + 1;
      while k < |s| && s[k] <= x
        invariant i + 1 <= k <= |s|
        invariant forall j :: 0 <= j < k ==> s[j] <= x
      {
        k := k + 1;
      }
      forall j | k <= j < |s| ensures x < s[j] {
        assert x < s[k];
      }
      CountLeOfPartition(s, x, k);
    } else {
      // find the first element > x at or before i
      var k := i;
      while k > 0 && x < s[k - 1]
        invariant 0 <= k <= i
        invariant forall j :: k <= j < |s| ==> x < s[j]
      {
        k := k - 1;
      }
      forall j | 0 <= j < k ensures s[j] <= x {
        assert s[j] <= s[k - 1];
      }
      CountLeOfPartition(s, x, k);
    }
  }

  /**
   * `bisect_right(a, x, lo, hi)`: halve [lo, hi) until it is empty, going left
   * when x < a[mid] and right otherwise, and answer where it closed.
   */
  function BisectFrom(a: seq<real>, x: real, lo: nat, hi: nat): (r: nat)
    requires lo <= hi <= |a|
    ensures lo <= r <= hi
    decreases hi - lo
  {
    if lo < hi then
      var mid := (lo + hi) / 2;
      if x < a[mid] then BisectFrom(a, x, lo, mid) else BisectFrom(a, x, mid + 1, hi)
    else lo
  }

  /** `bisect_right(a, x)`: the search over the whole sequence. */
  function BisectSearch(a: seq<real>, x: real): (r: nat)
    ensures r <= |a|
  {
    BisectFrom(a, x, 0, |a|)
  }

  /** When the neighbours of the window straddle x, the search closes at a split point. */
  lemma {:induction false} BisectFromSplits(a: seq<real>, x: real, lo: nat, hi: nat)
    requires lo <= hi <= |a|
    requires lo > 0 ==> a[lo - 1] <= x
    requires hi < |a| ==> x < a[hi]
    ensures var r := BisectFrom(a, x, lo, hi);
      (r > 0 ==> a[r - 1] <= x) && (r < |a| ==> x < a[r])
    decreases hi - lo
  {
    if lo < hi {
      var mid := (lo + hi) / 2;
      assert lo <= mid < hi;
      if x < a[mid] {
        BisectFromSplits(a, x, lo, mid);
      } else {
        BisectFromSplits(a, x, mid + 1, hi);
      }
    }
  }

  /** On a sorted sequence the search closes at the number of elements <= x. */
  lemma {:induction false} BisectFromCounts(a: seq<real>, x: real, lo: nat, hi: nat)
    requires Sorted(a)
    requires lo <= hi <= |a|
    requires forall i :: 0 <= i < lo ==> a[i] <= x
    requires forall i :: hi <= i < |a| ==> x < a[i]
    ensures BisectFrom(a, x, lo, hi) == CountLe(a, x)
    decreases hi - lo
  {
    if lo < hi {
      var mid := (lo + hi) / 2;
      if x < a[mid] {
        forall i | mid <= i < |a| ensures x < a[i] {
          assert a[mid] <= a[i];
        }
        BisectFromCounts(a, x, lo, mid);
      } else {
        forall i | 0 <= i < mid + 1 ensures a[i] <= x {
          assert a[i] <= a[mid];
        }
        BisectFromCounts(a, x, mid + 1, hi);
      }
    } else {
      CountLeOfPartition(a, x, lo);
    }
  }

  /**
   * Whatever the order of `a`, `bisect_right` splits it at an element <= x
   * and one > x; on a sorted `a` it is the number of elements <= x.
   */
  lemma BisectSearchSplits(a: seq<real>, x: real)
    ensures var r := BisectSearch(a, x);
      && (r > 0 ==> a[r - 1] <= x)
      && (r < |a| ==> x < a[r])
      && (Sorted(a) ==> r == CountLe(a, x))
  {
    BisectFromSplits(a, x, 0, |a|);
    if Sorted(a) {
      BisectFromCounts(a, x, 0, |a|);
    }
  }

  /**
   * `bisect_right(a, x)` with lo = 0 and hi = len(a), as the loop the
   * library runs.
   */
  method BisectRight(a: seq<real>, x: real) returns (r: nat)
    ensures r == BisectSearch(a, x)
    ensures r > 0 ==> a[r - 1] <= x
    ensures r < |a| ==> x < a[r]
    ensures Sorted(a) ==> r == CountLe(a, x)
  {
    var lo, hi := 0, |a|;
    while lo < hi
      invariant 0 <= lo <= hi <= |a|
      invariant BisectFrom(a, x, lo, hi) == BisectSearch(a, x)
      decreases hi - lo
    {
      var mid := (lo + hi) / 2;
      assert lo <= mid < hi;
      if x < a[mid] {
        hi := mid;
      } else {
        lo := mid + 1;
      }
    }
    r := lo;
    BisectSearchSplits(a, x);
  }
}
