# Getaround delay analysis, modelled in Dafny

The Getaround dashboard (`Dashboard/app.py`) is a Streamlit page. It loads a
table of car rentals and works out how late checkouts affect the next
rental of the same car. This project models the analysis logic inside that
page on integer minutes:

- **Cleaning.** Rows whose checkout delay falls outside a closed band
  `[lo, hi]` are dropped. Rows with a missing delay are always kept.
- **Categorisation.** `categorize_delay` puts each checkout delay into one
  of nine categories. The categories are then grouped into Early / Late /
  Unknown.
- **Conflicts.** A conflict is a rental whose delay goes past its planned
  gap to the previous rental.
- **Threshold sweep.** For each candidate minimum gap in the ladder
  30, 60, 90, 120, 180, 360, 720, 1440 minutes, the page computes:
  - how many rentals the gap would affect, over all check-ins and over
    connect check-ins only;
  - the share of revenue those rentals carry;
  - how many conflicts the gap would have solved, in both scopes.

The table is a `seq<Rental>`. A missing value (NaN in the source) is
`None`. Every count is the length of a filtered table, the way
`frame[mask].shape[0]` works. The page's three `for threshold in
thresholds` loops are methods. They append to `seq` lists and fill `map`
dictionaries, just as the source appends to lists and fills dicts. Each of
the three loop methods links every entry to a count function in its
postcondition and states the bounds and the monotonicity that follow. A
fourth method models the solved-cases loop as written, with its crash.

How the model reads the source:

- The outlier band's ends come from `mean ± 3·std` of the delays. Here they
  are the integer parameters `lo` and `hi`. Delays are whole minutes, so a
  float bound picks the same rows as its floor (upper end) or ceiling
  (lower end).
- Revenue uses the same price on every row (line 376). The model therefore
  sums a constant column and proves that the revenue share equals the
  share of affected rentals. A numpy 0/0 gives NaN; the model returns
  `None` when the total revenue is zero.
- The source's `/` on two Python ints (a `len()` or a `.shape[0]`) is true
  division, which raises `ZeroDivisionError` when the divisor is 0. That
  error is the `ZeroDivision` outcome.
  - In the affected-rentals loop it happens when the table is empty.
  - In the solved-cases loop it happens when the table has no conflict
    among connect check-ins (see Findings).
- Conflicts compare a row's own time delta with the same row's own
  checkout delay, as lines 321-323 do.
- The Early / Late / Unknown regrouping labels the unknown group
  "Unkonwn" (line 252). `GroupLabel` keeps that spelling.

## Model

| member | source | states |
|---|---|---|
| Categories.Categorize | Dashboard/app.py:60-78 | the category is "Unknown" exactly when the delay is absent; a present delay always gets one of the other eight |
| Categories.Label | Dashboard/app.py:62-78 | definition, no contract: the string each category is returned as |
| Categories.Rank | Dashboard/app.py:210-213 | definition, no contract: the position of each category in the chart's category array, Unknown last |
| Categories.CategorizeByBucketStarts | Dashboard/app.py:60-78 | a present delay lands in the category whose axis position equals the number of bucket starts (1, 60, 120, 180, 360, 720, 1440) it has reached, i.e. the first matching line of the if-chain |
| Categories.CategorizeMonotone | Dashboard/app.py:60-78 | if d1 <= d2 then the category of d1 comes no later on the axis than the category of d2 |
| Categories.CategoriesDistinct | Dashboard/app.py:210-213 | the nine labels and the nine axis positions are pairwise distinct |
| Categories.CategorizeBoundaries | Dashboard/app.py:60-78 | the boundary values: absent gives "Unknown", 0 gives "Early or in time", 1 and 59 give "< 1 hour", 60 gives "1 to 2 hours", 1439 gives "12 to 24 hours", 1440 gives "1 day or more", and so on |
| Categories.Regroup | Dashboard/app.py:251-253 | definition, no contract: "Early or in time" stays early, "Unknown" becomes the unknown group, every other category is late |
| Categories.GroupLabel | Dashboard/app.py:251-253 | definition, no contract: the group strings, with the unknown group spelled "Unkonwn" |
| Categories.CategoryCount | Dashboard/app.py:273 | definition, no contract: the value count of one category, 0 when it does not occur |
| Categories.GroupCount | Dashboard/app.py:251-253 | definition, no contract: the value count of one group, 0 when it does not occur |
| Categories.GroupOfDelay | Dashboard/app.py:251-253 | the group is Unknown iff the delay is absent, Early iff it is present and <= 0, and Late iff it is present and > 0 |
| Categories.GroupCountsPartition | Dashboard/app.py:251-255 | every row is in exactly one group, so the Early, Late and Unknown counts add up to the number of rows |
| Categories.SingleCategoryGroups | Dashboard/app.py:251-253 | the Early count is the "Early or in time" count and the Unknown count is the "Unknown" count |
| Categories.LateGroupIsSevenCategories | Dashboard/app.py:251-253 | the Late count is the sum of the counts of the seven late categories |
| Categories.CategoryCountsPartition | Dashboard/app.py:273-275 | the nine category counts add up to the number of rows |
| Cleaning.Kept | Dashboard/app.py:57 | definition, no contract: the keep mask, an absent delay or a delay inside the closed band |
| Cleaning.IsOutlier | Dashboard/app.py:52-53 | definition, no contract: the outlier mask, a present delay above or below the band |
| Cleaning.Outliers | Dashboard/app.py:52-53 | no more rows than the table, and every row it holds is an outlier |
| Cleaning.NumOutliers | Dashboard/app.py:55 | definition, no contract: the number of outlier rows |
| Cleaning.Cleaned | Dashboard/app.py:57 | no more rows than the table, and every row it holds passes the keep mask |
| Cleaning.KeptIffNotOutlier | Dashboard/app.py:52-57 | a row passes the keep mask exactly when it fails the outlier mask, for any band |
| Cleaning.OutlierSplitIsPartition | Dashboard/app.py:52-57 | the outliers and the cleaned table together hold every original row exactly once (as multisets), so num_outliers + rows kept = rows loaded |
| Cleaning.CleanedContents | Dashboard/app.py:57 | the cleaned table holds exactly the rows with an absent delay or a delay in [lo, hi], in their original order; no outlier is kept |
| Cleaning.CleaningIdempotent | Dashboard/app.py:57 | filtering the cleaned table again with the same band changes nothing and finds no outliers |
| Cleaning.BandEndsKept | Dashboard/app.py:52-57 | the band is closed: delays equal to lo or hi are kept, and hi + 1 and lo - 1 are outliers |
| Conflicts.DeltaMinusLateCheckout | Dashboard/app.py:321 | definition, no contract: the row's time delta minus its own checkout delay, missing when either is missing |
| Conflicts.IsConflict | Dashboard/app.py:323 | definition, no contract: the difference is present and negative |
| Conflicts.ConflictSet | Dashboard/app.py:323 | no more rows than the table, and every row it holds is a conflict |
| Conflicts.ProblematicColumn | Dashboard/app.py:338 | definition, no contract: the boolean column of the conflict test, one cell per row |
| Conflicts.ConflictDefinition | Dashboard/app.py:321-323 | a row is a conflict iff both values are present and time delta minus delay is negative; an absent value on either side is never a conflict |
| Conflicts.ConflictExamples | Dashboard/app.py:321-323 | a gap of 20 with a delay of 30 is a conflict; a gap of 30 with a delay of 20 is not; missing values are not |
| Conflicts.ConflictSetContents | Dashboard/app.py:323-325 | the conflict set holds exactly the conflicting rows as a subsequence of the table, and the count of True cells in the problematic-delay column equals its size |
| Conflicts.ConflictIsLate | Dashboard/app.py:324-328 | with a non-negative gap, a conflicting delay is positive, so the row is in the Late group |
| Conflicts.ConflictsAtMostLate | Dashboard/app.py:324-328 | when no gap is negative, there are no more conflicts than late checkouts |
| Sweep.ThresholdsIncrease | Dashboard/app.py:374 | the ladder has eight thresholds in strictly increasing order, hence non-decreasing |
| Sweep.Percent | Dashboard/app.py:430-431 | definition, no contract: count over total times 100, defined only for a non-zero total |
| Sweep.IsAffected | Dashboard/app.py:423 | definition, no contract: the gap is present and at most the threshold |
| Sweep.AffectedCount | Dashboard/app.py:423 | definition, no contract: `all_affected`, the rows with a gap at most the threshold |
| Sweep.ConnectAffectedCount | Dashboard/app.py:425-426 | definition, no contract: `connect_affected`, the same rows restricted to connect check-ins |
| Sweep.AffectedColumn | Dashboard/app.py:383 | definition, no contract: the boolean `affected_rentals_{threshold}` column |
| Sweep.AffectedCountBounds | Dashboard/app.py:421-427 | connect_affected <= all_affected <= number of rows |
| Sweep.AffectedCountMonotone | Dashboard/app.py:421-427 | both affected counts are non-decreasing in the threshold |
| Sweep.AffectedColumnsAgree | Dashboard/app.py:399 | counting the True cells of a threshold's affected column gives the same number as filtering the rows |
| Sweep.AffectedCountsFromColumns | Dashboard/app.py:399 | the chart's affected_counts has one entry per threshold, and each entry equals all_affected at that threshold |
| Sweep.Revenue | Dashboard/app.py:385-386 | the sum of the constant price column over n rows is n times the price |
| Sweep.RevenueImpact | Dashboard/app.py:384-387 | definition, no contract: affected revenue over total revenue times 100, undefined (NaN) when the total is 0 |
| Sweep.RevenueImpactIsAffectedShare | Dashboard/app.py:383-387 | the revenue impact is undefined iff the table is empty or the price is zero; otherwise it equals all_affected / rows * 100 |
| Sweep.RevenueImpactMonotone | Dashboard/app.py:382-387 | with a non-zero price and a non-empty table, the revenue impact is in [0, 100] and non-decreasing in the threshold |
| Sweep.RevenueSweep | Dashboard/app.py:379-389 | one revenue-impact entry per threshold; the dictionary has exactly the thresholds as keys, with the same values; with a price and rows, each entry is the affected share, in [0, 100] and non-decreasing along a sorted ladder |
| Sweep.AffectedSweep | Dashboard/app.py:414-431 | raises on division by zero exactly when the table is empty and there are thresholds; otherwise both lists and all four dictionaries hold the affected counts and percentages per threshold, with connect <= all <= rows, and both lists are non-decreasing along a sorted ladder |
| Sweep.AffectedTableProperties | Dashboard/app.py:421-431 | in any table the second loop produces, connect <= all <= rows at each threshold, and both lists are non-decreasing along a sorted ladder |
| Sweep.IsSolved | Dashboard/app.py:481 | definition, no contract: the delay is present and at most the threshold |
| Sweep.SolvedCount | Dashboard/app.py:481-486 | definition, no contract: `solved_cases`, the conflicts with a delay at most the threshold |
| Sweep.ConnectSolvedCount | Dashboard/app.py:482-488 | definition, no contract: `solved_cases_connect`, the same conflicts restricted to connect check-ins |
| Sweep.ConnectConflictCount | Dashboard/app.py:485 | definition, no contract: `total_connect_pb_cases`, the conflicts among connect check-ins |
| Sweep.SolvedCountBounds | Dashboard/app.py:481-489 | solved_connect <= solved_all <= number of conflicts, and solved_connect <= connect conflicts |
| Sweep.SolvedCountMonotone | Dashboard/app.py:481-489 | both solved counts are non-decreasing in the threshold |
| Sweep.SolvedSweep | Dashboard/app.py:476-490 | both solved lists have one entry per threshold, holding the conflicts with delay <= threshold (all scope and connect scope), with connect <= all <= conflicts, non-decreasing along a sorted ladder |
| Sweep.SolvedLoopDividesByZero | Dashboard/app.py:484-493 | definition, no contract: there is a threshold, and there is no conflict or no connect conflict |
| Sweep.SolvedSweepAsWritten | Dashboard/app.py:479-493 | the loop as written, with its two ratios, raises exactly when there are thresholds and no conflict (or no connect conflict); otherwise it returns the same lists as SolvedSweep |
| Sweep.MobileOnlyConflictsDivideByZero | Dashboard/app.py:479-493 | two mobile conflicts (delays 30 and 40, gap 20 each) survive cleaning with the band [14, 56] that mean ± 3·std gives, are both late, and make the as-written loop raise at the first threshold, although one conflict is solved there |

## Left out

- Page layout, sidebar, widgets, markdown and all plotly figures (Dashboard/app.py:12-26, 84-221, 257-299, 341-365, 391-409, 433-467, 496-566, 650-710): presentation only.
- Loading the two tables over HTTP and the `st.cache_data` caching (lines 32-45): I/O.
- The price-prediction page and its call to the remote prediction service (lines 579-646): a network call to code that is not part of this model. `ML_&_API/app.py` is not part of this model.
- The float statistics: the mean and standard deviation behind the outlier band (lines 47, 50-51) become the parameters `lo` and `hi`. The degenerate band pandas produces for a single present delay (a NaN standard deviation) is therefore outside the model. The mean, minimum and maximum time deltas (309-311) and the average problematic and non-problematic delays (331-333) are also left out. They are only displayed.
- Floating-point rounding: percentages and revenue shares use exact `real` arithmetic. NaN appears only as `None`.
- The `late_checkout` lookup by label `[0]` on a filtered Series and the `problematic_delays_rate` division (lines 324, 327). These depend on pandas index behaviour, and the rate is only displayed. `ConflictsAtMostLate` bounds the rate's numerator by its denominator instead.
- The `percentage_solved_*` ratios (lines 492-493): their values are never used. `SolvedSweepAsWritten` models only when they raise.
- RevenueSweep: the display dictionary holds the unrounded ratio. `round(…, 3)` (line 389) is float formatting.
- Adding columns to the shared data frame through the aliases `delay_impact` and `treshold_data` (lines 319-321, 338, 376-383). The model computes the same values as functions (`AffectedColumn`, `ProblematicColumn`) without mutating any table.
- The order and the zero-count omission of `value_counts()`. Counts are given per category and per group; a category that does not occur counts 0.
- Conflicts pair a rental's gap with that same rental's own checkout delay, as lines 321-323 do. The gap is measured to the previous rental, so a reading that compares it with the previous rental's delay would need a join on the previous rental's identifier. The model does not make that join and proves no time-line reading of a conflict.
- Columns the analysis never reads: car and rental identifiers and the rental state.

## Findings

| source | as written | input that shows it | evidently intended | confidence | as-written member | corrected member |
|---|---|---|---|---|---|---|
| Dashboard/app.py:492-493 | inside the solved-cases loop, `solved_cases / total_problems_cases` and `solved_cases_connect / total_connect_pb_cases` are true divisions of Python ints (both divisors come from `len()`). They raise ZeroDivisionError at the first threshold when the table has no conflict among connect check-ins. | two mobile rentals with delays 30 and 40 and a gap of 20 each: mean 35, std about 7.07, so cleaning keeps both; "Late" is the only group; two conflicts, no connect conflict | the two solved-case lists are built for every table; the unused ratios never stop the page | not executed | Sweep.SolvedSweepAsWritten | Sweep.SolvedSweep |
