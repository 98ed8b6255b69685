/** Outlier removal on the checkout delay (Dashboard/app.py:52-57). The
    source derives the band from the mean and standard deviation of the
    delays (`mean - 3*std`, `mean + 3*std`); here the two ends of the band
    are parameters `lo` and `hi`. Delays are whole minutes, so a float
    upper bound `h` selects the same rows as the integer `floor(h)`, and a
    float lower bound `l` the same rows as `ceil(l)`. */
module Cleaning {
  import opened Rentals
  import opened SeqFilter

  /** The mask of line 57: the delay is absent (`isna()`), or it lies in
      the closed band. */
  predicate Kept(r: Rental, lo: int, hi: int)
  {
    r.delay.None? || (lo <= r.delay.value && r.delay.value <= hi)
  }

  /** The mask of lines 52-53: the delay is above or below the band. A
      comparison with a missing delay is false, so an absent delay is never
      an outlier. */
  predicate IsOutlier(r: Rental, lo: int, hi: int)
  {
    r.delay.Some? && (r.delay.value > hi || r.delay.value < lo)
  }

  function KeptBy(lo: int, hi: int): Rental -> bool
  {
    (r: Rental) => Kept(r, lo, hi)
  }

  function OutlierBy(lo: int, hi: int): Rental -> bool
  {
    (r: Rental) => IsOutlier(r, lo, hi)
  }

  /** `outliers`: the rows outside the band. */
  function Outliers(data: Table, lo: int, hi: int): (o: Table)
    ensures |o| <= |data|
    ensures forall i :: 0 <= i < |o| ==> IsOutlier(o[i], lo, hi)
  {
    Filter(data, OutlierBy(lo, hi))
  }

  /** `num_outliers`. */
  function NumOutliers(data: Table, lo: int, hi: int): nat
  {
    |Outliers(data, lo, hi)|
  }

  /** The cleaned table that replaces `data` at line 57. */
  function Cleaned(data: Table, lo: int, hi: int): (c: Table)
    ensures |c| <= |data|
    ensures forall i :: 0 <= i < |c| ==> Kept(c[i], lo, hi)
  {
    Filter(data, KeptBy(lo, hi))
  }

  /** A row is kept exactly when it is not an outlier, whatever the band. */
  lemma KeptIffNotOutlier(r: Rental, lo: int, hi: int)
    ensures Kept(r, lo, hi) <==> !IsOutlier(r, lo, hi)
  {
  }

  /** The outliers and the cleaned table split the original table: together
      they hold every row exactly once, so `num_outliers` plus the number of
      rows left is the number of rows loaded. */
  lemma OutlierSplitIsPartition(data: Table, lo: int, hi: int)
    ensures multiset(Outliers(data, lo, hi)) + multiset(Cleaned(data, lo, hi)) == multiset(data)
    ensures NumOutliers(data, lo, hi) + |Cleaned(data, lo, hi)| == |data|
  {
    FilterPartition(data, OutlierBy(lo, hi), KeptBy(lo, hi));
  }

  /** What the cleaned table holds: every row of the original with an
      absent delay or a delay inside the band, and nothing else, in the
      original order. */
  lemma CleanedContents(data: Table, lo: int, hi: int)
    ensures forall r :: r in Cleaned(data, lo, hi) ==> r in data && Kept(r, lo, hi)
    ensures forall i :: 0 <= i < |data| && data[i].delay.None? ==> data[i] in Cleaned(data, lo, hi)
    ensures forall i :: 0 <= i < |data| && data[i].delay.Some? && lo <= data[i].delay.value <= hi
                 ==> data[i] in Cleaned(data, lo, hi)
    ensures forall r :: r in Outliers(data, lo, hi) ==> r.delay.Some? && r !in Cleaned(data, lo, hi)
    ensures IsSubsequence(Cleaned(data, lo, hi), data)
  {
    var c := Cleaned(data, lo, hi);
    FilterMembers(data, KeptBy(lo, hi));
    FilterMembers(data, OutlierBy(lo, hi));
    forall r | r in c
      ensures r in data && Kept(r, lo, hi)
    {
      var i :| 0 <= i < |c| && c[i] == r;
    }
    forall r | r in Outliers(data, lo, hi)
      ensures r.delay.Some? && r !in c
    {
      var o := Outliers(data, lo, hi);
      var i :| 0 <= i < |o| && o[i] == r;
    }
    FilterIsSubsequence(data, KeptBy(lo, hi));
  }

  /** The filter is applied once (the band is not recomputed), and applying
      it again with the same band would change nothing. */
  lemma CleaningIdempotent(data: Table, lo: int, hi: int)
    ensures Cleaned(Cleaned(data, lo, hi), lo, hi) == Cleaned(data, lo, hi)
    ensures NumOutliers(Cleaned(data, lo, hi), lo, hi) == 0
  {
    FilterIdempotent(data, KeptBy(lo, hi));
    var c := Cleaned(data, lo, hi);
    OutlierSplitIsPartition(c, lo, hi);
  }

  /** The band is closed: delays exactly at either end stay. */
  lemma BandEndsKept(lo: int, hi: int, t: Option<int>, k: CheckinType)
    requires lo <= hi
    ensures Kept(Rental(Some(lo), t, k), lo, hi) && Kept(Rental(Some(hi), t, k), lo, hi)
    ensures IsOutlier(Rental(Some(hi + 1), t, k), lo, hi) && IsOutlier(Rental(Some(lo - 1), t, k), lo, hi)
  {
  }
}
