/** The threshold sweep of the delay analysis page (Dashboard/app.py:374-490):
    for each candidate minimum gap between two rentals of a car, how many
    rentals it would affect, which share of revenue that is, and how many
    of the conflicts it would have solved. The three loops of the source
    are methods that append to lists (`seq`) and fill dictionaries (`map`);
    what each entry must be is given by the count functions beside them. */
module Sweep {
  import opened Rentals
  import opened SeqFilter
  import opened Conflicts
  import opened Categories
  import opened Cleaning

  /** The candidate thresholds, in minutes (line 374). */
  const Thresholds: seq<int> := [30, 60, 90, 120, 180, 360, 720, 1440]

  predicate NonDecreasing(s: seq<int>)
  {
    forall i, j :: 0 <= i <= j < |s| ==> s[i] <= s[j]
  }

  /** The ladder is strictly increasing, so in particular non-decreasing,
      which is what the sweep methods' monotonicity clauses ask for. */
  lemma ThresholdsIncrease()
    ensures |Thresholds| == 8
    ensures forall i, j :: 0 <= i < j < |Thresholds| ==> Thresholds[i] < Thresholds[j]
    ensures NonDecreasing(Thresholds)
  {
  }

  /** `count / total * 100`, as the source writes its percentages. */
  function Percent(count: nat, total: nat): real
    requires total > 0
  {
    count as real / total as real * 100.0
  }

  lemma PercentBounds(c1: nat, c2: nat, total: nat)
    requires total > 0 && c1 <= c2
    ensures 0.0 <= Percent(c1, total) <= Percent(c2, total)
    ensures c2 <= total ==> Percent(c2, total) <= 100.0
  {
  }

  // ---------------------------------------------------------------------
  // Affected rentals (lines 382-384, 399, 421-431)

  /** A threshold `t` affects a rental whose planned gap to the previous
      rental is at most `t`; a missing gap (NaN) is never `<= t`. */
  predicate IsAffected(r: Rental, t: int)
  {
    r.timeDelta.Some? && r.timeDelta.value <= t
  }

  function AffectedBy(t: int): Rental -> bool
  {
    (r: Rental) => IsAffected(r, t)
  }

  function ConnectAffectedBy(t: int): Rental -> bool
  {
    (r: Rental) => IsAffected(r, t) && r.checkin == Connect
  }

  /** `all_affected`. */
  function AffectedCount(data: Table, t: int): nat
  {
    |Filter(data, AffectedBy(t))|
  }

  /** `connect_affected`. */
  function ConnectAffectedCount(data: Table, t: int): nat
  {
    |Filter(data, ConnectAffectedBy(t))|
  }

  /** The `affected_rentals_{threshold}` column of line 383. */
  function AffectedColumn(data: Table, t: int): seq<bool>
  {
    Mask(data, AffectedBy(t))
  }

  /** The connect-only count never exceeds the count over all check-ins,
      which never exceeds the number of rows. */
  lemma AffectedCountBounds(data: Table, t: int)
    ensures ConnectAffectedCount(data, t) <= AffectedCount(data, t) <= |data|
  {
    FilterMonotone(data, ConnectAffectedBy(t), AffectedBy(t));
  }

  /** A larger threshold affects at least as many rentals, in either scope. */
  lemma AffectedCountMonotone(data: Table, t1: int, t2: int)
    requires t1 <= t2
    ensures AffectedCount(data, t1) <= AffectedCount(data, t2)
    ensures ConnectAffectedCount(data, t1) <= ConnectAffectedCount(data, t2)
  {
    FilterMonotone(data, AffectedBy(t1), AffectedBy(t2));
    FilterMonotone(data, ConnectAffectedBy(t1), ConnectAffectedBy(t2));
  }

  /** Counting the true cells of a threshold's column (line 399) gives the
      same number as filtering the rows (line 423). */
  lemma AffectedColumnsAgree(data: Table)
    ensures forall t :: |AffectedColumn(data, t)| == |data|
    ensures forall t :: CountTrue(AffectedColumn(data, t)) == AffectedCount(data, t)
  {
    forall t
      ensures |AffectedColumn(data, t)| == |data|
      ensures CountTrue(AffectedColumn(data, t)) == AffectedCount(data, t)
    {
      CountTrueOfMask(data, AffectedBy(t));
    }
  }

  /** `affected_counts` (line 399), the points of the affected-rentals
      line chart: one per threshold, equal to `all_affected`. */
  function AffectedCountsFromColumns(data: Table, ts: seq<int>): (counts: seq<nat>)
    ensures |counts| == |ts|
    ensures forall i :: 0 <= i < |ts| ==> counts[i] == AffectedCount(data, ts[i])
  {
    AffectedColumnsAgree(data);
    seq(|ts|, i requires 0 <= i < |ts| => CountTrue(AffectedColumn(data, ts[i])))
  }

  // ---------------------------------------------------------------------
  // Revenue impact (lines 376, 382-389)

  /** Sum of the `mean_price_per_rental` column over `rows`: every row
      carries the same price, the mean daily price of the pricing table. */
  function Revenue(rows: Table, price: real): (total: real)
    ensures total == |rows| as real * price
  {
    if rows == [] then 0.0 else price + Revenue(rows[1..], price)
  }

  /** `revenue_impact` at threshold `t`: affected revenue over total
      revenue, in percent. Over an empty table, or with a zero price, both
      sums are zero and the float division yields NaN, here `None`. */
  function RevenueImpact(data: Table, t: int, price: real): Option<real>
  {
    var total := Revenue(data, price);
    if total == 0.0 then None
    else Some(Revenue(Filter(data, AffectedBy(t)), price) / total * 100.0)
  }

  /** Because every row carries the same price, the revenue share is the
      share of affected rentals; it is undefined exactly when the table is
      empty or the price is zero. */
  lemma RevenueImpactIsAffectedShare(data: Table, t: int, price: real)
    ensures RevenueImpact(data, t, price).None? <==> |data| == 0 || price == 0.0
    ensures |data| > 0 && price != 0.0 ==>
      RevenueImpact(data, t, price) == Some(Percent(AffectedCount(data, t), |data|))
  {
    if |data| > 0 && price != 0.0 {
      var a := AffectedCount(data, t) as real;
      var n := |data| as real;
      assert Revenue(data, price) == n * price;
      assert n * price != 0.0;
      assert Revenue(Filter(data, AffectedBy(t)), price) == a * price;
      CancelCommonFactor(a, n, price);
    }
  }

  lemma CancelCommonFactor(a: real, n: real, p: real)
    requires n != 0.0 && p != 0.0
    ensures (a * p) / (n * p) == a / n
  {
  }

  /** With a non-zero price and a non-empty table the revenue impact lies
      in [0, 100] and grows with the threshold. */
  lemma RevenueImpactMonotone(data: Table, t1: int, t2: int, price: real)
    requires |data| > 0 && price != 0.0 && t1 <= t2
    ensures RevenueImpact(data, t1, price).Some? && RevenueImpact(data, t2, price).Some?
    ensures 0.0 <= RevenueImpact(data, t1, price).value <= RevenueImpact(data, t2, price).value <= 100.0
  {
    RevenueImpactIsAffectedShare(data, t1, price);
    RevenueImpactIsAffectedShare(data, t2, price);
    AffectedCountMonotone(data, t1, t2);
    AffectedCountBounds(data, t2);
    PercentBounds(AffectedCount(data, t1), AffectedCount(data, t2), |data|);
  }

  /** The first loop (lines 379-389): `percentage_revenue_impacted`, one
      entry per threshold, and the dictionary keyed by threshold. */
  method RevenueSweep(data: Table, ts: seq<int>, price: real)
    returns (impacted: seq<Option<real>>, display: map<int, Option<real>>)
    ensures |impacted| == |ts|
    ensures forall i :: 0 <= i < |ts| ==> impacted[i] == RevenueImpact(data, ts[i], price)
    ensures forall t :: t in display <==> t in ts
    ensures forall i :: 0 <= i < |ts| ==> display[ts[i]] == impacted[i]
    ensures |data| > 0 && price != 0.0 ==>
      forall i :: 0 <= i < |ts| ==> impacted[i] == Some(Percent(AffectedCount(data, ts[i]), |data|))
    ensures |data| > 0 && price != 0.0 && NonDecreasing(ts) ==>
      forall i, j :: 0 <= i <= j < |ts| ==>
        0.0 <= impacted[i].value <= impacted[j].value <= 100.0
  {
    impacted := [];
    display := map[];
    for i := 0 to |ts|
      invariant |impacted| == i
      invariant forall j :: 0 <= j < i ==> impacted[j] == RevenueImpact(data, ts[j], price)
      invariant forall t :: t in display <==> t in ts[..i]
      invariant forall j :: 0 <= j < i ==> display[ts[j]] == impacted[j]
    {
      var threshold := ts[i];
      var affectedRentals := Filter(data, AffectedBy(threshold));
      var affectedRevenue := Revenue(affectedRentals, price);
      var totalRevenue := Revenue(data, price);
      var revenueImpact := if totalRevenue == 0.0 then None else Some(affectedRevenue / totalRevenue * 100.0);
      impacted := impacted + [revenueImpact];
      display := display[threshold := revenueImpact];
      assert ts[..i + 1] == ts[..i] + [threshold];
    }
    assert ts[..|ts|] == ts;
    forall i | 0 <= i < |ts|
      ensures |data| > 0 && price != 0.0 ==> impacted[i] == Some(Percent(AffectedCount(data, ts[i]), |data|))
    {
      RevenueImpactIsAffectedShare(data, ts[i], price);
    }
    if |data| > 0 && price != 0.0 && NonDecreasing(ts) {
      forall i, j | 0 <= i <= j < |ts|
        ensures 0.0 <= impacted[i].value <= impacted[j].value <= 100.0
      {
        RevenueImpactMonotone(data, ts[i], ts[j], price);
      }
    }
  }

  /** How a sweep ends: with its results, or with the ZeroDivisionError
      that Python raises when `/` divides a Python int (a `len()` or a
      `.shape[0]`) by zero. */
  datatype Outcome<T> = Done(value: T) | ZeroDivision

  /** The results of the second loop (lines 414-431). */
  datatype AffectedTable = AffectedTable(
    allList: seq<nat>,
    connectList: seq<nat>,
    allDisplay: map<int, nat>,
    connectDisplay: map<int, nat>,
    allPercentage: map<int, real>,
    connectPercentage: map<int, real>)

  /** What the second loop computes over `data` for the thresholds `ts`. */
  ghost predicate IsAffectedTable(data: Table, ts: seq<int>, tab: AffectedTable)
  {
    && |tab.allList| == |ts| && |tab.connectList| == |ts|
    && (forall i :: 0 <= i < |ts| ==>
          tab.allList[i] == AffectedCount(data, ts[i]) && tab.connectList[i] == ConnectAffectedCount(data, ts[i]))
    && (forall t :: t in tab.allDisplay <==> t in ts)
    && (forall t :: t in tab.connectDisplay <==> t in ts)
    && (forall t :: t in tab.allPercentage <==> t in ts)
    && (forall t :: t in tab.connectPercentage <==> t in ts)
    && (forall i :: 0 <= i < |ts| ==>
          && tab.allDisplay[ts[i]] == AffectedCount(data, ts[i])
          && tab.connectDisplay[ts[i]] == ConnectAffectedCount(data, ts[i])
          && |data| > 0
          && tab.allPercentage[ts[i]] == Percent(AffectedCount(data, ts[i]), |data|)
          && tab.connectPercentage[ts[i]] == Percent(ConnectAffectedCount(data, ts[i]), |data|))
  }

  /** The second loop (lines 421-431). `all_affected / all_rentals` with
      an empty table raises at the first threshold. Every list entry
      respects connect <= all <= rows, and along a non-decreasing ladder
      both lists are non-decreasing. */
  method AffectedSweep(data: Table, ts: seq<int>) returns (out: Outcome<AffectedTable>)
    ensures out.ZeroDivision? <==> |data| == 0 && |ts| > 0
    ensures out.Done? ==> IsAffectedTable(data, ts, out.value)
    ensures out.Done? ==> forall i :: 0 <= i < |ts| ==>
      out.value.connectList[i] <= out.value.allList[i] <= |data|
    ensures out.Done? && NonDecreasing(ts) ==>
      NonDecreasing(out.value.allList) && NonDecreasing(out.value.connectList)
  {
    var allList: seq<nat> := [];
    var allDisplay: map<int, nat> := map[];
    var connectList: seq<nat> := [];
    var connectDisplay: map<int, nat> := map[];
    var allPercentage: map<int, real> := map[];
    var connectPercentage: map<int, real> := map[];
    for i := 0 to |ts|
      invariant |allList| == i && |connectList| == i
      invariant forall j :: 0 <= j < i ==>
        allList[j] == AffectedCount(data, ts[j]) && connectList[j] == ConnectAffectedCount(data, ts[j])
      invariant forall t :: t in allDisplay <==> t in ts[..i]
      invariant forall t :: t in connectDisplay <==> t in ts[..i]
      invariant forall t :: t in allPercentage <==> t in ts[..i]
      invariant forall t :: t in connectPercentage <==> t in ts[..i]
      invariant i > 0 ==> |data| > 0
      invariant forall j :: 0 <= j < i ==>
        && allDisplay[ts[j]] == AffectedCount(data, ts[j])
        && connectDisplay[ts[j]] == ConnectAffectedCount(data, ts[j])
        && allPercentage[ts[j]] == Percent(AffectedCount(data, ts[j]), |data|)
        && connectPercentage[ts[j]] == Percent(ConnectAffectedCount(data, ts[j]), |data|)
    {
      var threshold := ts[i];
      var allRentals := |data|;
      var allAffected := |Filter(data, AffectedBy(threshold))|;
      allList := allList + [allAffected];
      var connectAffected := |Filter(data, ConnectAffectedBy(threshold))|;
      connectList := connectList + [connectAffected];
      allDisplay := allDisplay[threshold := allAffected];
      connectDisplay := connectDisplay[threshold := connectAffected];
      if allRentals == 0 {
        return ZeroDivision;
      }
      allPercentage := allPercentage[threshold := Percent(allAffected, allRentals)];
      connectPercentage := connectPercentage[threshold := Percent(connectAffected, allRentals)];
      assert ts[..i + 1] == ts[..i] + [threshold];
    }
    assert ts[..|ts|] == ts;
    var tab := AffectedTable(allList, connectList, allDisplay, connectDisplay, allPercentage, connectPercentage);
    AffectedTableProperties(data, ts, tab);
    out := Done(tab);
  }

  /** What follows from a table of the second loop: connect <= all <= rows
      at each threshold, and non-decreasing lists along a sorted ladder. */
  lemma AffectedTableProperties(data: Table, ts: seq<int>, tab: AffectedTable)
    requires IsAffectedTable(data, ts, tab)
    ensures forall i :: 0 <= i < |ts| ==> tab.connectList[i] <= tab.allList[i] <= |data|
    ensures NonDecreasing(ts) ==> NonDecreasing(tab.allList) && NonDecreasing(tab.connectList)
  {
    forall i | 0 <= i < |ts|
      ensures tab.connectList[i] <= tab.allList[i] <= |data|
    {
      AffectedCountBounds(data, ts[i]);
    }
    if NonDecreasing(ts) {
      forall i, j | 0 <= i <= j < |ts|
        ensures tab.allList[i] <= tab.allList[j] && tab.connectList[i] <= tab.connectList[j]
      {
        AffectedCountMonotone(data, ts[i], ts[j]);
      }
    }
  }

  // ---------------------------------------------------------------------
  // Solved conflicts (lines 476-493)

  /** A threshold `t` would have solved a conflict whose delay is at most
      `t`: the next rental would have been planned `t` minutes later. */
  predicate IsSolved(r: Rental, t: int)
  {
    r.delay.Some? && r.delay.value <= t
  }

  function SolvedBy(t: int): Rental -> bool
  {
    (r: Rental) => IsSolved(r, t)
  }

  function ConnectSolvedBy(t: int): Rental -> bool
  {
    (r: Rental) => IsSolved(r, t) && r.checkin == Connect
  }

  const ConnectBy: Rental -> bool := (r: Rental) => r.checkin == Connect

  /** `solved_cases`: conflicts whose delay is at most `t`. */
  function SolvedCount(data: Table, t: int): nat
  {
    |Filter(ConflictSet(data), SolvedBy(t))|
  }

  /** `solved_cases_connect`: the same, among connect check-ins. */
  function ConnectSolvedCount(data: Table, t: int): nat
  {
    |Filter(ConflictSet(data), ConnectSolvedBy(t))|
  }

  /** `total_connect_pb_cases`: conflicts among connect check-ins. */
  function ConnectConflictCount(data: Table): nat
  {
    |Filter(ConflictSet(data), ConnectBy)|
  }

  /** Connect-only solved cases never exceed all solved cases, which never
      exceed the number of conflicts; connect-only solved cases never exceed
      the connect conflicts. */
  lemma SolvedCountBounds(data: Table, t: int)
    ensures ConnectSolvedCount(data, t) <= SolvedCount(data, t) <= |ConflictSet(data)|
    ensures ConnectSolvedCount(data, t) <= ConnectConflictCount(data) <= |ConflictSet(data)|
  {
    var c := ConflictSet(data);
    FilterMonotone(c, ConnectSolvedBy(t), SolvedBy(t));
    FilterMonotone(c, ConnectSolvedBy(t), ConnectBy);
  }

  /** A larger threshold solves at least as many conflicts, in either scope. */
  lemma SolvedCountMonotone(data: Table, t1: int, t2: int)
    requires t1 <= t2
    ensures SolvedCount(data, t1) <= SolvedCount(data, t2)
    ensures ConnectSolvedCount(data, t1) <= ConnectSolvedCount(data, t2)
  {
    var c := ConflictSet(data);
    FilterMonotone(c, SolvedBy(t1), SolvedBy(t2));
    FilterMonotone(c, ConnectSolvedBy(t1), ConnectSolvedBy(t2));
  }

  /** The third loop (lines 479-490) without the two unused ratios:
      `solved_cases_all_list` and `solved_cases_connect_list`. */
  method SolvedSweep(data: Table, ts: seq<int>) returns (solvedAll: seq<nat>, solvedConnect: seq<nat>)
    ensures |solvedAll| == |ts| && |solvedConnect| == |ts|
    ensures forall i :: 0 <= i < |ts| ==>
      solvedAll[i] == SolvedCount(data, ts[i]) && solvedConnect[i] == ConnectSolvedCount(data, ts[i])
    ensures forall i :: 0 <= i < |ts| ==> solvedConnect[i] <= solvedAll[i] <= |ConflictSet(data)|
    ensures NonDecreasing(ts) ==> NonDecreasing(solvedAll) && NonDecreasing(solvedConnect)
  {
    var negativeDelayImpact := ConflictSet(data);
    solvedAll := [];
    solvedConnect := [];
    for i := 0 to |ts|
      invariant |solvedAll| == i && |solvedConnect| == i
      invariant forall j :: 0 <= j < i ==>
        solvedAll[j] == SolvedCount(data, ts[j]) && solvedConnect[j] == ConnectSolvedCount(data, ts[j])
    {
      var threshold := ts[i];
      var problematicCases := Filter(negativeDelayImpact, SolvedBy(threshold));
      var problematicConnectCases := Filter(negativeDelayImpact, ConnectSolvedBy(threshold));
      solvedAll := solvedAll + [|problematicCases|];
      solvedConnect := solvedConnect + [|problematicConnectCases|];
    }
    forall i | 0 <= i < |ts|
      ensures solvedConnect[i] <= solvedAll[i] <= |ConflictSet(data)|
    {
      SolvedCountBounds(data, ts[i]);
    }
    if NonDecreasing(ts) {
      forall i, j | 0 <= i <= j < |ts|
        ensures solvedAll[i] <= solvedAll[j] && solvedConnect[i] <= solvedConnect[j]
      {
        SolvedCountMonotone(data, ts[i], ts[j]);
      }
    }
  }

  /** When the third loop as written stops: `solved_cases /
      total_problems_cases` and `solved_cases_connect /
      total_connect_pb_cases` are true divisions of Python ints, which
      raise ZeroDivisionError when the divisor is 0, evaluated at the first
      threshold already. */
  predicate SolvedLoopDividesByZero(data: Table, ts: seq<int>)
  {
    |ts| > 0 && (|ConflictSet(data)| == 0 || ConnectConflictCount(data) == 0)
  }

  /** The third loop as written, ratios included: it raises whenever the
      table has no conflict among connect check-ins, although the ratios are
      never shown. */
  method SolvedSweepAsWritten(data: Table, ts: seq<int>)
    returns (out: Outcome<(seq<nat>, seq<nat>)>)
    ensures out.ZeroDivision? <==> SolvedLoopDividesByZero(data, ts)
    ensures out.Done? ==> |out.value.0| == |ts| && |out.value.1| == |ts|
    ensures out.Done? ==> forall i :: 0 <= i < |ts| ==>
      out.value.0[i] == SolvedCount(data, ts[i]) && out.value.1[i] == ConnectSolvedCount(data, ts[i])
  {
    var negativeDelayImpact := ConflictSet(data);
    var solvedAll: seq<nat> := [];
    var solvedConnect: seq<nat> := [];
    for i := 0 to |ts|
      invariant |solvedAll| == i && |solvedConnect| == i
      invariant forall j :: 0 <= j < i ==>
        solvedAll[j] == SolvedCount(data, ts[j]) && solvedConnect[j] == ConnectSolvedCount(data, ts[j])
      invariant i > 0 ==> |negativeDelayImpact| > 0 && ConnectConflictCount(data) > 0
    {
      var threshold := ts[i];
      var problematicCases := Filter(negativeDelayImpact, SolvedBy(threshold));
      var problematicConnectCases := Filter(negativeDelayImpact, ConnectSolvedBy(threshold));
      var totalProblemsCases := |negativeDelayImpact|;
      var totalConnectCases := |Filter(negativeDelayImpact, ConnectBy)|;
      solvedAll := solvedAll + [|problematicCases|];
      solvedConnect := solvedConnect + [|problematicConnectCases|];
      if totalProblemsCases == 0 || totalConnectCases == 0 {
        return ZeroDivision;
      }
    }
    out := Done((solvedAll, solvedConnect));
  }

  /** Two mobile conflicts, delays 30 and 40 with a gap of 20 each. Their
      mean delay is 35 and their standard deviation about 7.07, so the
      outlier band of lines 50-57 is about [13.8, 56.2], on whole minutes
      [14, 56]: cleaning keeps both rows, both are late, and the loop as
      written raises at the first threshold although a conflict is solved
      there. */
  lemma MobileOnlyConflictsDivideByZero()
    ensures var raw := [Rental(Some(30), Some(20), Mobile), Rental(Some(40), Some(20), Mobile)];
      && Cleaned(raw, 14, 56) == raw
      && GroupCount(raw, LateGroup) == 2
      && |ConflictSet(raw)| == 2
      && SolvedLoopDividesByZero(Cleaned(raw, 14, 56), Thresholds)
      && SolvedCount(raw, Thresholds[0]) == 1
  {
  }
}
