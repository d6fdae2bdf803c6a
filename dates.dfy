/**
 * Half-open date ranges. A date is a day number (the parsing of "DD-MM-YYYY"
 * strings into day numbers is outside this model); the range
 * DateRange(start, end) covers the nights start, start + 1, ..., end - 1.
 */
module Dates {
  import opened Outcomes

  datatype DateRange = DateRange(start: int, end: int) {

    predicate Valid() {
      start <= end
    }

    /** Builds a range from two already parsed dates, refusing an end before the start. */
    static function Make(start: int, end: int): (r: Result<DateRange>)
      ensures r.Ok? <==> start <= end
      ensures r.Ok? ==> r.value.Valid() && r.value.start == start && r.value.end == end
      ensures r.Err? ==> r.error == InvalidRange
    {
      if start <= end then Ok(DateRange(start, end)) else Err(InvalidRange)
    }

    /** Night `day` is part of the stay. */
    predicate Contains(day: int) {
      start <= day < end
    }

    /** The number of nights of the stay: positive exactly when the check-in night is part of it. */
    function Nights(): (n: int)
      ensures Valid() ==> n >= 0
      ensures n > 0 <==> Contains(start)
    {
      end - start
    }

    /**
     * The two ranges overlap by the half-open endpoint rule. Any night they
     * share makes them overlap; ranges that only touch at a boundary date do
     * not; two zero-night ranges never do.
     */
    function Overlaps(other: DateRange): (b: bool)
      ensures (exists day :: Contains(day) && other.Contains(day)) ==> b
      ensures end == other.start || start == other.end ==> !b
      ensures b ==> start < end || other.start < other.end
    {
      start < other.end && other.start < end
    }

    // The explicit bounds make the set finite; `Contains` gives the quantifier its trigger.
    ghost function NightSet(): set<int> {
      set day | start <= day < end && Contains(day)
    }
  }

  lemma OverlapsIsSymmetric(a: DateRange, b: DateRange)
    ensures a.Overlaps(b) <==> b.Overlaps(a)
  {
  }

  /**
   * For stays of at least one night, overlap by endpoints is exactly "some
   * night belongs to both stays". (A zero-night range strictly inside a stay
   * still overlaps it by the endpoint rule, so the stays must be non-empty.)
   */
  lemma OverlapsIffSharedNight(a: DateRange, b: DateRange)
    requires a.start < a.end && b.start < b.end
    ensures a.Overlaps(b) <==> exists day :: a.Contains(day) && b.Contains(day)
  {
    if a.Overlaps(b) {
      var day := if a.start < b.start then b.start else a.start;
      assert a.Contains(day) && b.Contains(day);
    }
  }

  /** A stay that ends on the day another starts does not clash with it (back-to-back bookings). */
  lemma TouchingRangesDoNotOverlap(a: DateRange, b: DateRange)
    requires a.end == b.start
    ensures !a.Overlaps(b) && !b.Overlaps(a)
  {
  }

  /** A stay of at least one night clashes with itself, so an identical range is refused. */
  lemma NonEmptyRangeOverlapsItself(a: DateRange)
    requires a.start < a.end
    ensures a.Overlaps(a)
  {
  }

  /** Nights() counts the nights the stay covers. */
  lemma {:induction false} NightsCountsNights(a: DateRange)
    requires a.Valid()
    ensures |a.NightSet()| == a.Nights()
    decreases a.end - a.start
  {
    if a.start == a.end {
      assert a.NightSet() == {};
    } else {
      var shorter := DateRange(a.start, a.end - 1);
      NightsCountsNights(shorter);
      assert a.NightSet() == shorter.NightSet() + {a.end - 1};
    }
  }

  /**
   * The ranges of the overlap specs against the stay 3 to 6 April, with day n
   * standing for n April 2019. The specs reassign one of their ranges before
   * use, so 3 to 4 and 3 to 6 April are never passed to the overlap test
   * there; they are added here as cases of the same rule.
   */
  lemma SuiteOverlapCases()
    ensures var booked := DateRange(3, 6);
      && booked.Overlaps(DateRange(2, 4)) && booked.Overlaps(DateRange(2, 6))
      && booked.Overlaps(DateRange(2, 7)) && booked.Overlaps(DateRange(3, 4))
      && booked.Overlaps(DateRange(3, 6)) && booked.Overlaps(DateRange(3, 7))
      && booked.Overlaps(DateRange(4, 5)) && booked.Overlaps(DateRange(4, 6))
      && booked.Overlaps(DateRange(4, 7))
      && !booked.Overlaps(DateRange(1, 2)) && !booked.Overlaps(DateRange(2, 3))
      && !booked.Overlaps(DateRange(6, 7)) && !booked.Overlaps(DateRange(7, 8))
  {
  }
}
