/** Separated points in time, and how many of them fit in a window. */
module Spacing {

  /** Every two neighbours are at least `gap` apart. */
  ghost predicate Spaced(stamps: seq<real>, gap: real) {
    forall i :: 0 < i < |stamps| ==> stamps[i] - stamps[i - 1] >= gap
  }

  /** No reading is earlier than the one before it. */
  ghost predicate NonDecreasing(times: seq<real>) {
    forall i, j :: 0 <= i <= j < |times| ==> times[i] <= times[j]
  }

  /** The number of stamps in the closed window from `lo` to `hi`. */
  function CountIn(stamps: seq<real>, lo: real, hi: real): nat {
    if stamps == [] then 0
    else
      var n := |stamps| - 1;
      CountIn(stamps[..n], lo, hi) + (if lo <= stamps[n] <= hi then 1 else 0)
  }

  /** Spaced stamps inside a window of length W number at most floor(W / gap) + 1. */
  lemma {:induction false} WindowBound(stamps: seq<real>, gap: real, lo: real, hi: real)
    requires gap > 0.0 && lo <= hi
    requires Spaced(stamps, gap)
    ensures CountIn(stamps, lo, hi) <= ((hi - lo) / gap).Floor + 1
  {
    WindowSpan(stamps, gap, lo, hi);
    var n := CountIn(stamps, lo, hi);
    if n > 0 {
      MultipleIsProduct(n - 1, gap);
      Quotient((n - 1) as real, gap, hi - lo);
    } else {
      Quotient(0.0, gap, hi - lo);
    }
  }

  /** The last of n stamps in a window lies at least (n - 1) gaps after its start. */
  lemma {:induction false} WindowSpan(stamps: seq<real>, gap: real, lo: real, hi: real)
    requires gap > 0.0 && lo <= hi
    requires Spaced(stamps, gap)
    ensures CountIn(stamps, lo, hi) > 0 ==>
              && Multiple(CountIn(stamps, lo, hi) - 1, gap) <= hi - lo
              && Multiple(CountIn(stamps, lo, hi) - 1, gap) <= stamps[|stamps| - 1] - lo
  {
    if stamps != [] {
      var m := |stamps| - 1;
      var front := stamps[..m];
      WindowSpan(front, gap, lo, hi);
      assert m > 0 ==> front[m - 1] == stamps[m - 1];
    }
  }

  /** n * gap, by repeated addition. */
  function Multiple(n: nat, gap: real): real {
    if n == 0 then 0.0 else Multiple(n - 1, gap) + gap
  }

  lemma {:induction false} MultipleIsProduct(n: nat, gap: real)
    ensures Multiple(n, gap) == n as real * gap
  {
    if n > 0 {
      MultipleIsProduct(n - 1, gap);
      var k := (n - 1) as real;
      assert n as real == k + 1.0;
      assert (k + 1.0) * gap == k * gap + gap;
    }
  }

  lemma {:induction false} Quotient(n: real, gap: real, width: real)
    requires gap > 0.0 && n * gap <= width
    ensures n <= width / gap
  {
    var q := width / gap;
    assert q * gap == width;
    assert (n - q) * gap == n * gap - q * gap;
  }

  // ----- Stamps in any order -----

  /** Every two stamps are at least `gap` apart, in whatever order they are listed. */
  ghost predicate Apart(stamps: seq<real>, gap: real) {
    forall i, j :: 0 <= i < j < |stamps| ==> Far(stamps[i], stamps[j], gap)
  }

  predicate Far(x: real, y: real, gap: real) {
    x - y >= gap || y - x >= gap
  }

  /** Every window of length W holds at most floor(W / gap) + 1 stamps. */
  ghost predicate Bounded(stamps: seq<real>, gap: real)
    requires gap > 0.0
  {
    forall lo, hi :: lo <= hi ==> CountIn(stamps, lo, hi) <= ((hi - lo) / gap).Floor + 1
  }

  /** The stretch of length `gap` behind `lo` in which a stamp lies. */
  function Bucket(x: real, lo: real, gap: real): int
    requires gap > 0.0
  {
    ((x - lo) / gap).Floor
  }

  lemma {:induction false} FarInOtherBuckets(x: real, y: real, lo: real, gap: real)
    requires gap > 0.0 && y - x >= gap
    ensures Bucket(x, lo, gap) < Bucket(y, lo, gap)
  {
    var p, q := (x - lo) / gap, (y - lo) / gap;
    assert p * gap == x - lo && q * gap == y - lo;
    assert (q - p - 1.0) * gap == q * gap - p * gap - gap;
    SameSign(q - p - 1.0, gap);
  }

  lemma {:induction false} SameSign(d: real, gap: real)
    requires gap > 0.0
    ensures d * gap >= 0.0 <==> d >= 0.0
  {
    if d < 0.0 {
      assert (0.0 - d) * gap > 0.0;
      assert (0.0 - d) * gap == 0.0 - d * gap;
    }
  }

  lemma {:induction false} BucketInRange(x: real, lo: real, hi: real, gap: real)
    requires gap > 0.0 && lo <= x <= hi
    ensures 0 <= Bucket(x, lo, gap) <= ((hi - lo) / gap).Floor
  {
    Quotient(0.0, gap, x - lo);
    var p, q := (x - lo) / gap, (hi - lo) / gap;
    assert p * gap == x - lo && q * gap == hi - lo;
    assert (q - p) * gap == q * gap - p * gap;
    SameSign(q - p, gap);
  }

  /** The buckets of the stamps in a window. */
  function BucketsIn(stamps: seq<real>, lo: real, hi: real, gap: real): set<int>
    requires gap > 0.0
  {
    if stamps == [] then {}
    else
      var n := |stamps| - 1;
      BucketsIn(stamps[..n], lo, hi, gap) + (if lo <= stamps[n] <= hi then {Bucket(stamps[n], lo, gap)} else {})
  }

  lemma {:induction false} BucketsAreOfStamps(stamps: seq<real>, lo: real, hi: real, gap: real, b: int)
    requires gap > 0.0 && b in BucketsIn(stamps, lo, hi, gap)
    ensures exists i :: 0 <= i < |stamps| && lo <= stamps[i] <= hi && Bucket(stamps[i], lo, gap) == b
  {
    var n := |stamps| - 1;
    if b in BucketsIn(stamps[..n], lo, hi, gap) {
      BucketsAreOfStamps(stamps[..n], lo, hi, gap, b);
      var i :| 0 <= i < n && lo <= stamps[..n][i] <= hi && Bucket(stamps[..n][i], lo, gap) == b;
      assert stamps[i] == stamps[..n][i];
    } else {
      assert lo <= stamps[n] <= hi && Bucket(stamps[n], lo, gap) == b;
    }
  }

  /** Stamps that are apart lie in buckets of their own. */
  lemma {:induction false} OneStampPerBucket(stamps: seq<real>, lo: real, hi: real, gap: real)
    requires gap > 0.0 && Apart(stamps, gap)
    ensures |BucketsIn(stamps, lo, hi, gap)| == CountIn(stamps, lo, hi)
  {
    if stamps != [] {
      var n := |stamps| - 1;
      OneStampPerBucket(stamps[..n], lo, hi, gap);
      if lo <= stamps[n] <= hi {
        NewBucket(stamps, lo, hi, gap);
      }
    }
  }

  lemma {:induction false} NewBucket(stamps: seq<real>, lo: real, hi: real, gap: real)
    requires gap > 0.0 && Apart(stamps, gap) && stamps != []
    ensures Bucket(stamps[|stamps| - 1], lo, gap) !in BucketsIn(stamps[..|stamps| - 1], lo, hi, gap)
  {
    var n := |stamps| - 1;
    var b := Bucket(stamps[n], lo, gap);
    if b in BucketsIn(stamps[..n], lo, hi, gap) {
      BucketsAreOfStamps(stamps[..n], lo, hi, gap, b);
      var i :| 0 <= i < n && lo <= stamps[..n][i] <= hi && Bucket(stamps[..n][i], lo, gap) == b;
      assert Far(stamps[i], stamps[n], gap);
      if stamps[n] - stamps[i] >= gap {
        FarInOtherBuckets(stamps[i], stamps[n], lo, gap);
      } else {
        FarInOtherBuckets(stamps[n], stamps[i], lo, gap);
      }
    }
  }

  function UpTo(n: nat): (s: set<int>)
    ensures |s| == n && forall x :: x in s <==> 0 <= x < n
  {
    if n == 0 then {} else UpTo(n - 1) + {n - 1}
  }

  lemma {:induction false} SubsetIsSmaller(a: set<int>, b: set<int>)
    requires a <= b
    ensures |a| <= |b|
  {
    assert b == a + (b - a);
  }

  lemma {:induction false} ApartIsBounded(stamps: seq<real>, gap: real, lo: real, hi: real)
    requires gap > 0.0 && lo <= hi && Apart(stamps, gap)
    ensures CountIn(stamps, lo, hi) <= ((hi - lo) / gap).Floor + 1
  {
    var last := ((hi - lo) / gap).Floor;
    Quotient(0.0, gap, hi - lo);
    OneStampPerBucket(stamps, lo, hi, gap);
    forall b | b in BucketsIn(stamps, lo, hi, gap) ensures b in UpTo(last + 1) {
      BucketsAreOfStamps(stamps, lo, hi, gap, b);
      var i :| 0 <= i < |stamps| && lo <= stamps[i] <= hi && Bucket(stamps[i], lo, gap) == b;
      BucketInRange(stamps[i], lo, hi, gap);
    }
    SubsetIsSmaller(BucketsIn(stamps, lo, hi, gap), UpTo(last + 1));
  }

  lemma {:induction false} CountsOne(stamps: seq<real>, i: nat, lo: real, hi: real)
    requires i < |stamps| && lo <= stamps[i] <= hi
    ensures CountIn(stamps, lo, hi) >= 1
  {
    if i < |stamps| - 1 {
      CountsOne(stamps[..|stamps| - 1], i, lo, hi);
    }
  }

  lemma {:induction false} CountsTwo(stamps: seq<real>, i: nat, j: nat, lo: real, hi: real)
    requires i < j < |stamps| && lo <= stamps[i] <= hi && lo <= stamps[j] <= hi
    ensures CountIn(stamps, lo, hi) >= 2
  {
    var n := |stamps| - 1;
    if j < n {
      CountsTwo(stamps[..n], i, j, lo, hi);
    } else {
      CountsOne(stamps[..n], i, lo, hi);
    }
  }

  lemma {:induction false} FractionFloor(width: real, gap: real)
    requires 0.0 <= width < gap
    ensures (width / gap).Floor == 0
  {
    var q := width / gap;
    assert q * gap == width;
    Quotient(0.0, gap, width);
    assert (q - 1.0) * gap == q * gap - gap;
    SameSign(q - 1.0, gap);
  }

  /** In any order, the window bound holds for every window exactly if every two stamps are a gap apart. */
  lemma {:induction false} ApartIffBounded(stamps: seq<real>, gap: real)
    requires gap > 0.0
    ensures Apart(stamps, gap) <==> Bounded(stamps, gap)
  {
    if Apart(stamps, gap) {
      forall lo, hi | lo <= hi ensures CountIn(stamps, lo, hi) <= ((hi - lo) / gap).Floor + 1 {
        ApartIsBounded(stamps, gap, lo, hi);
      }
    }
    if Bounded(stamps, gap) {
      forall i, j | 0 <= i < j < |stamps| ensures Far(stamps[i], stamps[j], gap) {
        if !Far(stamps[i], stamps[j], gap) {
          var lo := if stamps[i] <= stamps[j] then stamps[i] else stamps[j];
          var hi := if stamps[i] <= stamps[j] then stamps[j] else stamps[i];
          CountsTwo(stamps, i, j, lo, hi);
          FractionFloor(hi - lo, gap);
        }
      }
    }
  }
}
