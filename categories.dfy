/** Checkout-delay categories (Dashboard/app.py, `categorize_delay` and the
    `checkout_delay_category` column), the coarser Late / Early / Unknown
    grouping of the delay analysis page, and the per-category and per-group
    row counts the bar charts are drawn from. */
module Categories {
  import opened Rentals
  import opened SeqFilter

  /** The nine labels `categorize_delay` can return. */
  datatype Category =
    | EarlyOrInTime
    | UnderOneHour
    | OneToTwoHours
    | TwoToThreeHours
    | ThreeToSixHours
    | SixToTwelveHours
    | TwelveToTwentyFourHours
    | OneDayOrMore
    | Unknown

  /** `categorize_delay`: the first matching line of its if-chain, on
      integer minutes. A present delay never lands in Unknown. */
  function Categorize(delay: Option<int>): (c: Category)
    ensures c == Unknown <==> delay.None?
  {
    match delay
    case None => Unknown
    case Some(d) =>
      if d <= 0 then EarlyOrInTime
      else if d < 60 then UnderOneHour
      else if d < 120 then OneToTwoHours
      else if d < 180 then TwoToThreeHours
      else if d < 360 then ThreeToSixHours
      else if d < 720 then SixToTwelveHours
      else if d < 1440 then TwelveToTwentyFourHours
      else OneDayOrMore
  }

  /** The string the source returns for each category. */
  function Label(c: Category): string
  {
    match c
    case EarlyOrInTime => "Early or in time"
    case UnderOneHour => "< 1 hour"
    case OneToTwoHours => "1 to 2 hours"
    case TwoToThreeHours => "2 to 3 hours"
    case ThreeToSixHours => "3 to 6 hours"
    case SixToTwelveHours => "6 to 12 hours"
    case TwelveToTwentyFourHours => "12 to 24 hours"
    case OneDayOrMore => "1 day or more"
    case Unknown => "Unknown"
  }

  /** Position of a category on the category axis of the delay charts
      (Dashboard/app.py:210-213): shortest delay first, Unknown last. */
  function Rank(c: Category): nat
  {
    match c
    case EarlyOrInTime => 0
    case UnderOneHour => 1
    case OneToTwoHours => 2
    case TwoToThreeHours => 3
    case ThreeToSixHours => 4
    case SixToTwelveHours => 5
    case TwelveToTwentyFourHours => 6
    case OneDayOrMore => 7
    case Unknown => 8
  }

  /** On integer minutes, the smallest delay of each late bucket, in axis
      order: "< 1 hour" starts at 1 because "Early or in time" takes 0. */
  const LateBucketStarts: seq<int> := [1, 60, 120, 180, 360, 720, 1440]

  /** How many of `bs` are at most `d`. */
  function CountAtMost(bs: seq<int>, d: int): nat
  {
    if bs == [] then 0 else (if bs[0] <= d then 1 else 0) + CountAtMost(bs[1..], d)
  }

  /** Reference reading of the if-chain: a present delay goes to the bucket
      whose rank is the number of bucket starts it has reached. */
  lemma CategorizeByBucketStarts(d: int)
    ensures Rank(Categorize(Some(d))) == CountAtMost(LateBucketStarts, d)
  {
    var bs := LateBucketStarts;
    assert CountAtMost(bs[7..], d) == 0 by { assert bs[7..] == []; }
    assert CountAtMost(bs[6..], d) == (if 1440 <= d then 1 else 0) by { assert bs[6..][1..] == bs[7..]; }
    assert CountAtMost(bs[5..], d) == (if 720 <= d then 1 else 0) + CountAtMost(bs[6..], d)
      by { assert bs[5..][1..] == bs[6..]; }
    assert CountAtMost(bs[4..], d) == (if 360 <= d then 1 else 0) + CountAtMost(bs[5..], d)
      by { assert bs[4..][1..] == bs[5..]; }
    assert CountAtMost(bs[3..], d) == (if 180 <= d then 1 else 0) + CountAtMost(bs[4..], d)
      by { assert bs[3..][1..] == bs[4..]; }
    assert CountAtMost(bs[2..], d) == (if 120 <= d then 1 else 0) + CountAtMost(bs[3..], d)
      by { assert bs[2..][1..] == bs[3..]; }
    assert CountAtMost(bs[1..], d) == (if 60 <= d then 1 else 0) + CountAtMost(bs[2..], d)
      by { assert bs[1..][1..] == bs[2..]; }
    assert CountAtMost(bs, d) == (if 1 <= d then 1 else 0) + CountAtMost(bs[1..], d);
  }

  lemma {:induction false} CountAtMostMonotone(bs: seq<int>, d1: int, d2: int)
    requires d1 <= d2
    ensures CountAtMost(bs, d1) <= CountAtMost(bs, d2)
  {
    if bs != [] {
      CountAtMostMonotone(bs[1..], d1, d2);
    }
  }

  /** Categorisation is order-preserving: a longer delay never lands in an
      earlier category of the axis. */
  lemma CategorizeMonotone(d1: int, d2: int)
    requires d1 <= d2
    ensures Rank(Categorize(Some(d1))) <= Rank(Categorize(Some(d2)))
  {
    CategorizeByBucketStarts(d1);
    CategorizeByBucketStarts(d2);
    CountAtMostMonotone(LateBucketStarts, d1, d2);
  }

  /** Each category has its own label and its own axis position. */
  lemma CategoriesDistinct(c1: Category, c2: Category)
    ensures Label(c1) == Label(c2) <==> c1 == c2
    ensures Rank(c1) == Rank(c2) <==> c1 == c2
  {
  }

  /** The boundary values of the if-chain. */
  lemma CategorizeBoundaries()
    ensures Label(Categorize(None)) == "Unknown"
    ensures Label(Categorize(Some(-15))) == "Early or in time"
    ensures Label(Categorize(Some(0))) == "Early or in time"
    ensures Label(Categorize(Some(1))) == "< 1 hour"
    ensures Label(Categorize(Some(59))) == "< 1 hour"
    ensures Label(Categorize(Some(60))) == "1 to 2 hours"
    ensures Label(Categorize(Some(119))) == "1 to 2 hours"
    ensures Label(Categorize(Some(120))) == "2 to 3 hours"
    ensures Label(Categorize(Some(180))) == "3 to 6 hours"
    ensures Label(Categorize(Some(360))) == "6 to 12 hours"
    ensures Label(Categorize(Some(720))) == "12 to 24 hours"
    ensures Label(Categorize(Some(1439))) == "12 to 24 hours"
    ensures Label(Categorize(Some(1440))) == "1 day or more"
  {
  }

  /** The three groups of Dashboard/app.py:251-253. */
  datatype DelayGroup = EarlyGroup | LateGroup | UnknownGroup

  /** Regrouping of a category: "Early or in time" stays, "Unknown" becomes
      the unknown group, every other category is late. */
  function Regroup(c: Category): DelayGroup
  {
    if c == EarlyOrInTime then EarlyGroup
    else if c == Unknown then UnknownGroup
    else LateGroup
  }

  /** The strings the source gives the groups; the unknown group's label is
      spelled "Unkonwn" there. */
  function GroupLabel(g: DelayGroup): string
  {
    match g
    case EarlyGroup => "Early or in time"
    case LateGroup => "Late"
    case UnknownGroup => "Unkonwn"
  }

  /** The group of a row, read straight off its delay. */
  lemma GroupOfDelay(delay: Option<int>)
    ensures Regroup(Categorize(delay)) == UnknownGroup <==> delay.None?
    ensures Regroup(Categorize(delay)) == EarlyGroup <==> delay.Some? && delay.value <= 0
    ensures Regroup(Categorize(delay)) == LateGroup <==> delay.Some? && delay.value > 0
  {
  }

  /** Row predicates used as masks. */
  function InCategory(c: Category): Rental -> bool
  {
    (r: Rental) => Categorize(r.delay) == c
  }

  function InGroup(g: DelayGroup): Rental -> bool
  {
    (r: Rental) => Regroup(Categorize(r.delay)) == g
  }

  /** Rows per category (`value_counts()` of the category column, with 0
      for a category that does not occur). */
  function CategoryCount(data: Table, c: Category): nat
  {
    |Filter(data, InCategory(c))|
  }

  /** Rows per group (`value_counts()` of the regrouped column). */
  function GroupCount(data: Table, g: DelayGroup): nat
  {
    |Filter(data, InGroup(g))|
  }

  /** Regrouping is a partition: every row is in exactly one group, so the
      three counts add up to the number of rows (the denominator of the
      group percentages, Dashboard/app.py:255). */
  lemma {:induction false} GroupCountsPartition(data: Table)
    ensures GroupCount(data, EarlyGroup) + GroupCount(data, LateGroup) + GroupCount(data, UnknownGroup) == |data|
  {
    if data != [] {
      GroupCountsPartition(data[1..]);
    }
  }

  /** The early and unknown groups are single categories. */
  lemma {:induction false} SingleCategoryGroups(data: Table)
    ensures GroupCount(data, EarlyGroup) == CategoryCount(data, EarlyOrInTime)
    ensures GroupCount(data, UnknownGroup) == CategoryCount(data, Unknown)
  {
    if data != [] {
      SingleCategoryGroups(data[1..]);
    }
  }

  /** The late group is the seven late categories together. */
  lemma {:induction false} LateGroupIsSevenCategories(data: Table)
    ensures GroupCount(data, LateGroup)
         == CategoryCount(data, UnderOneHour) + CategoryCount(data, OneToTwoHours)
          + CategoryCount(data, TwoToThreeHours) + CategoryCount(data, ThreeToSixHours)
          + CategoryCount(data, SixToTwelveHours) + CategoryCount(data, TwelveToTwentyFourHours)
          + CategoryCount(data, OneDayOrMore)
  {
    if data != [] {
      LateGroupIsSevenCategories(data[1..]);
    }
  }

  /** The nine category counts add up to the number of rows (the
      denominator of the category percentages, Dashboard/app.py:275). */
  lemma CategoryCountsPartition(data: Table)
    ensures CategoryCount(data, EarlyOrInTime) + CategoryCount(data, UnderOneHour)
          + CategoryCount(data, OneToTwoHours) + CategoryCount(data, TwoToThreeHours)
          + CategoryCount(data, ThreeToSixHours) + CategoryCount(data, SixToTwelveHours)
          + CategoryCount(data, TwelveToTwentyFourHours) + CategoryCount(data, OneDayOrMore)
          + CategoryCount(data, Unknown) == |data|
  {
    GroupCountsPartition(data);
    SingleCategoryGroups(data);
    LateGroupIsSevenCategories(data);
  }
}
