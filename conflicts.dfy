/** Conflict detection (Dashboard/app.py:321-325, 338): a row whose own
    checkout delay exceeds its own planned gap to the previous rental. */
module Conflicts {
  import opened Rentals
  import opened SeqFilter
  import opened Categories

  /** The `delta-late_checkout` column: time delta minus checkout delay,
      missing (NaN) when either operand is missing. */
  function DeltaMinusLateCheckout(r: Rental): Option<int>
  {
    if r.timeDelta.Some? && r.delay.Some? then Some(r.timeDelta.value - r.delay.value) else None
  }

  /** `delta-late_checkout < 0`; a comparison with NaN is false. */
  predicate IsConflict(r: Rental)
  {
    match DeltaMinusLateCheckout(r)
    case Some(v) => v < 0
    case None => false
  }

  const ConflictBy: Rental -> bool := (r: Rental) => IsConflict(r)

  /** `negative_delay_impact`: the conflicting rows. */
  function ConflictSet(data: Table): (c: Table)
    ensures |c| <= |data|
    ensures forall i :: 0 <= i < |c| ==> IsConflict(c[i])
  {
    Filter(data, ConflictBy)
  }

  /** The `problematic_delay` column of line 338. */
  function ProblematicColumn(data: Table): seq<bool>
  {
    Mask(data, ConflictBy)
  }

  /** A conflict is exactly a row with both values present whose delay
      exceeds its planned gap; a missing value on either side is never a
      conflict. */
  lemma ConflictDefinition(r: Rental)
    ensures IsConflict(r) <==> r.timeDelta.Some? && r.delay.Some? && r.timeDelta.value - r.delay.value < 0
    ensures r.timeDelta.None? || r.delay.None? ==> !IsConflict(r)
  {
  }

  /** Two worked examples: a gap of 20 with a delay of 30 is a conflict,
      a gap of 30 with a delay of 20 is not; a missing value on either side
      is not a conflict. */
  lemma ConflictExamples(k: CheckinType)
    ensures IsConflict(Rental(Some(30), Some(20), k))
    ensures !IsConflict(Rental(Some(20), Some(30), k))
    ensures !IsConflict(Rental(None, Some(20), k)) && !IsConflict(Rental(Some(30), None, k))
  {
  }

  /** The conflict set holds exactly the conflicting rows, in table order,
      and the `problematic_delay` column counts the same rows
      (`nb_problematic_checkin_late`). */
  lemma ConflictSetContents(data: Table)
    ensures forall r :: r in ConflictSet(data) ==> r in data && IsConflict(r)
    ensures forall i :: 0 <= i < |data| && IsConflict(data[i]) ==> data[i] in ConflictSet(data)
    ensures IsSubsequence(ConflictSet(data), data)
    ensures |ProblematicColumn(data)| == |data|
    ensures CountTrue(ProblematicColumn(data)) == |ConflictSet(data)|
  {
    var c := ConflictSet(data);
    FilterMembers(data, ConflictBy);
    forall r | r in c
      ensures r in data && IsConflict(r)
    {
      var i :| 0 <= i < |c| && c[i] == r;
    }
    FilterIsSubsequence(data, ConflictBy);
    CountTrueOfMask(data, ConflictBy);
  }

  /** With a non-negative planned gap, a conflicting delay is positive, so
      every conflict is in the "Late" group. */
  lemma ConflictIsLate(r: Rental)
    requires IsConflict(r) && r.timeDelta.value >= 0
    ensures r.delay.value > 0
    ensures Regroup(Categorize(r.delay)) == LateGroup
  {
    GroupOfDelay(r.delay);
  }

  /** When no planned gap is negative, there are no more conflicts than
      late checkouts: the rate at Dashboard/app.py:327 is at most 100%. */
  lemma ConflictsAtMostLate(data: Table)
    requires forall i :: 0 <= i < |data| && data[i].timeDelta.Some? ==> data[i].timeDelta.value >= 0
    ensures |ConflictSet(data)| <= GroupCount(data, LateGroup)
  {
    forall i | 0 <= i < |data| && ConflictBy(data[i])
      ensures InGroup(LateGroup)(data[i])
    {
      ConflictIsLate(data[i]);
    }
    FilterMonotone(data, ConflictBy, InGroup(LateGroup));
  }
}
