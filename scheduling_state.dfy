/**
 * The greedy scheduler's configuration and its schedule tracker: a class
 * holding the staff-to-date-to-shift map, with the three violation checks
 * the greedy scheduler asks before each assignment and the listing of
 * everything assigned.
 */
module SchedulingState {
  import opened Types
  import opened Plan
  import Plans = Plan
  import opened RuleContext
  import opened Sorting
  import MinDaysOffRule
  import MaxDaysOffRule
  import NoMorningAfterEveningRule
  import ShiftBalanceRule

  /** The three limits the greedy scheduler is configured with. */
  datatype SchedulingRules = SchedulingRules(
    minDaysOffPerWeek: nat,
    maxDaysOffPerWeek: nat,
    maxDailyShiftDifference: nat)

  /** One listed assignment: staff member, date, shift. */
  type Entry = (Uuid, Date, Shift)

  /**
   * The days-off check: a day off is held against the weekly maximum, a
   * work shift against the weekly minimum, both as the rule modules define them.
   */
  ghost predicate ViolatesDaysOff(rules: SchedulingRules, context: AssignmentContext)
  {
    if context.shift == DayOff then MaxDaysOffRule.Violated(rules.maxDaysOffPerWeek, context)
    else MinDaysOffRule.Violated(rules.minDaysOffPerWeek, context)
  }

  /** `e` is recorded in `p`. */
  ghost predicate Stored(p: Plan, e: Entry)
  {
    ShiftOf(p, e.0, e.1) == Some(e.2)
  }

  /** Every staff member of `p` has exactly `width` dates. */
  ghost predicate UniformRows(p: Plan, width: nat)
  {
    forall s :: s in p ==> |p[s]| == width
  }

  /** The listing order: by date alone. */
  function DateLe(a: Entry, b: Entry): bool
  {
    a.1 <= b.1
  }

  lemma DateLeTotal()
    ensures TotalPreorder(DateLe)
  {
  }

  class ScheduleState {
    /** For every staff member, the shift recorded on each date. */
    var assignments: Plan

    /** A tracker with nothing recorded: every lookup finds no shift. */
    constructor ()
      ensures assignments == map[]
      ensures forall s, d :: GetShift(s, d) == None
    {
      assignments := map[];
    }

    /**
     * Records `shift` for `staffId` on `date`, replacing whatever was
     * recorded there; every other staff member and date keeps its shift.
     */
    method Assign(staffId: Uuid, date: Date, shift: Shift)
      modifies this
      ensures assignments == Plans.Assign(old(assignments), staffId, date, shift)
      ensures GetShift(staffId, date) == Some(shift)
      ensures forall s, d :: (s != staffId || d != date) ==> GetShift(s, d) == old(GetShift(s, d))
    {
      var row := if staffId in assignments then assignments[staffId] else map[];
      assignments := assignments[staffId := row[date := shift]];
    }

    /** The shift recorded for `staffId` on `date`, the same lookup every rule uses. */
    function GetShift(staffId: Uuid, date: Date): (r: Option<Shift>)
      reads this
      ensures r == ShiftOf(assignments, staffId, date)
    {
      if staffId in assignments && date in assignments[staffId] then Some(assignments[staffId][date]) else None
    }

    /** A morning right after a recorded evening, or an evening right before a recorded morning. */
    function ViolatesNoMorningAfterEvening(staffId: Uuid, date: Date, shift: Shift): (r: bool)
      reads this
      ensures r <==> NoMorningAfterEveningRule.Violated(AssignmentContext(assignments, staffId, date, shift))
    {
      (shift == Morning && GetShift(staffId, date - 1) == Some(Evening)) ||
      (shift == Evening && GetShift(staffId, date + 1) == Some(Morning))
    }

    /** Days off recorded for `staffId` on the seven dates from `weekStart`. */
    method CountDaysOffInWeek(staffId: Uuid, weekStart: Date) returns (count: nat)
      ensures count == DaysOffInWeek(assignments, staffId, weekStart)
      ensures count <= 7
    {
      count := 0;
      for dayOffset := 0 to 7
        invariant count == DaysOffIn(assignments, staffId, weekStart, dayOffset)
      {
        var shift := GetShift(staffId, weekStart + dayOffset);
        if shift == Some(DayOff) {
          count := count + 1;
        }
      }
      DaysOffBounded(assignments, staffId, weekStart, 7);
    }

    /**
     * In the Monday-to-Sunday week of `date`: a day off that would exceed
     * the maximum, or a work shift after which the minimum is out of reach.
     */
    method ViolatesDaysOffRules(staffId: Uuid, date: Date, shift: Shift, rules: SchedulingRules) returns (r: bool)
      ensures r <==> ViolatesDaysOff(rules, AssignmentContext(assignments, staffId, date, shift))
    {
      var weekStart := WeekStart(date);
      var currentDaysOff := CountDaysOffInWeek(staffId, weekStart);
      if shift == DayOff {
        r := currentDaysOff + 1 > rules.maxDaysOffPerWeek;
      } else {
        var remainingDays := MinDaysOffRule.CountRemainingDaysInWeek(date, weekStart);
        MinDaysOffRule.RemainingDaysAreLaterDaysOfWeek(date);
        var daysOffStillPossible := currentDaysOff + remainingDays;
        r := daysOffStillPossible < rules.minDaysOffPerWeek;
      }
    }

    /**
     * How many staff members hold each shift on `date`. All three shifts
     * are present, and together they count everybody with a shift that day.
     */
    method CountShiftsOnDate(date: Date) returns (counts: map<Shift, nat>)
      ensures counts.Keys == {Morning, Evening, DayOff}
      ensures forall x :: x in counts ==> counts[x] == Headcount(assignments, date, x)
      ensures counts[Morning] + counts[Evening] + counts[DayOff] == |StaffedOn(assignments, date)|
    {
      counts := map[Morning := 0, Evening := 0, DayOff := 0];
      var staffLeft := assignments.Keys;
      ghost var done: set<Uuid> := {};
      ShiftBalanceRule.TallyStart(assignments, date, counts);
      while staffLeft != {}
        invariant staffLeft <= assignments.Keys && done == assignments.Keys - staffLeft
        invariant ShiftBalanceRule.Tallied(assignments, date, done, counts)
        decreases staffLeft
      {
        var staff :| staff in staffLeft;
        var staffAssignments := assignments[staff];
        if date in staffAssignments {
          var shift := staffAssignments[date];
          ShiftBalanceRule.TallyStep(assignments, date, done, counts, staff, shift);
          counts := counts[shift := counts[shift] + 1];
        } else {
          ShiftBalanceRule.TallySkip(assignments, date, done, counts, staff);
        }
        PartitionStep(assignments.Keys, staffLeft, done, staff);
        staffLeft := staffLeft - {staff};
        done := done + {staff};
      }
      assert done == assignments.Keys;
      ShiftBalanceRule.TallyDone(assignments, date, counts);
      HeadcountsPartition(assignments, date);
    }

    /**
     * Whether one more `shift` on `date` would put mornings and evenings
     * further apart than allowed; a day off never does. The staff member is
     * irrelevant to the verdict.
     */
    method ViolatesShiftBalance(date: Date, shift: Shift, rules: SchedulingRules) returns (r: bool)
      ensures forall staffId :: r <==> ShiftBalanceRule.Violated(rules.maxDailyShiftDifference, AssignmentContext(assignments, staffId, date, shift))
    {
      if shift == DayOff {
        return false;
      }
      var counts := CountShiftsOnDate(date);
      counts := counts[shift := counts[shift] + 1];
      var morningCount := counts[Morning];
      var eveningCount := counts[Evening];
      var diff := ShiftBalanceRule.AbsDiff(morningCount, eveningCount);
      r := diff > rules.maxDailyShiftDifference;
    }

    /**
     * Every recorded `(staff, date, shift)` exactly once, ordered by date.
     * When every staff member has the same number of dates, the listing has
     * that many entries per staff member.
     */
    method GetAllAssignments() returns (result: seq<Entry>)
      ensures forall i :: 0 <= i < |result| ==> ShiftOf(assignments, result[i].0, result[i].1) == Some(result[i].2)
      ensures forall s, d :: ShiftOf(assignments, s, d).Some? ==>
                exists i :: 0 <= i < |result| && result[i].0 == s && result[i].1 == d
      ensures forall i, j :: 0 <= i < j < |result| ==> result[i].0 != result[j].0 || result[i].1 != result[j].1
      ensures forall i, j :: 0 <= i < j < |result| ==> result[i].1 <= result[j].1
      ensures forall width: nat :: UniformRows(assignments, width) ==> |result| == width * |assignments.Keys|
    {
      var collected := [];
      var staffLeft := assignments.Keys;
      ghost var staffDone: set<Uuid> := {};
      ListingStart(assignments);
      while staffLeft != {}
        invariant Listing(collected, assignments, staffLeft, staffDone)
        decreases staffLeft
      {
        var staffId :| staffId in staffLeft;
        var dates := assignments[staffId];
        var entries := StaffEntries(staffId, dates);
        ListingStep(collected, assignments, staffLeft, staffDone, staffId, entries);
        collected := collected + entries;
        staffLeft := staffLeft - {staffId};
        staffDone := staffDone + {staffId};
      }
      ListingDone(collected, assignments, staffDone);
      result := InsertionSort(collected, DateLe);
      SortedListing(assignments, collected);
    }
  }

  /** The shifts of one staff member's row, one entry per date, in the row's own order. */
  method StaffEntries(staffId: Uuid, dates: map<Date, Shift>) returns (entries: seq<Entry>)
    ensures forall e :: e in entries <==> e.0 == staffId && e.1 in dates && e.2 == dates[e.1]
    ensures Distinct(entries) && |entries| == |dates|
  {
    entries := [];
    var datesLeft := dates.Keys;
    ghost var datesDone: set<Date> := {};
    while datesLeft != {}
      invariant datesLeft <= dates.Keys && datesDone == dates.Keys - datesLeft
      invariant forall e :: e in entries <==> e.0 == staffId && e.1 in datesDone && e.2 == dates[e.1]
      invariant Distinct(entries) && |entries| == |datesDone|
      decreases datesLeft
    {
      SomeDateIn(datesLeft);
      var date :| date in datesLeft;
      var entry := (staffId, date, dates[date]);
      PartitionStep(dates.Keys, datesLeft, datesDone, date);
      DistinctSnoc(entries, entry);
      entries := entries + [entry];
      datesLeft := datesLeft - {date};
      datesDone := datesDone + {date};
    }
  }

  /** The rows of `done` are listed, without repeats, and those of `left` are still to come. */
  ghost predicate Listing(rs: seq<Entry>, p: Plan, left: set<Uuid>, done: set<Uuid>)
  {
    left <= p.Keys && done == p.Keys - left &&
    (forall e :: e in rs <==> e.0 in done && Stored(p, e)) &&
    Distinct(rs) &&
    forall width: nat :: UniformRows(p, width) ==> |rs| == Times(width, |done|)
  }

  lemma ListingStart(p: Plan)
    ensures Listing([], p, p.Keys, {})
  {
    assert p.Keys - p.Keys == {};
  }

  lemma ListingStep(rs: seq<Entry>, p: Plan, left: set<Uuid>, done: set<Uuid>, staffId: Uuid, entries: seq<Entry>)
    requires Listing(rs, p, left, done) && staffId in left
    requires forall e :: e in entries <==> e.0 == staffId && e.1 in p[staffId] && e.2 == p[staffId][e.1]
    requires Distinct(entries) && |entries| == |p[staffId]|
    ensures Listing(rs + entries, p, left - {staffId}, done + {staffId})
  {
    PartitionStep(p.Keys, left, done, staffId);
    DistinctAppend(rs, entries);
    forall width: nat | UniformRows(p, width) ensures |rs + entries| == Times(width, |done + {staffId}|) {
      assert |entries| == width;
    }
  }

  lemma ListingDone(rs: seq<Entry>, p: Plan, done: set<Uuid>)
    requires Listing(rs, p, {}, done)
    ensures forall e :: e in rs <==> Stored(p, e)
    ensures Distinct(rs)
    ensures forall width: nat :: UniformRows(p, width) ==> |rs| == width * |p.Keys|
  {
    assert done == p.Keys;
    forall width: nat | UniformRows(p, width) ensures |rs| == width * |p.Keys| {
      TimesIsProduct(width, |done|);
    }
  }

  /** Ordering the listing by date keeps every entry once. */
  lemma SortedListing(p: Plan, rs: seq<Entry>)
    requires forall e :: e in rs <==> Stored(p, e)
    requires Distinct(rs)
    ensures var sorted := InsertionSort(rs, DateLe);
            (forall i :: 0 <= i < |sorted| ==> ShiftOf(p, sorted[i].0, sorted[i].1) == Some(sorted[i].2)) &&
            (forall s, d :: ShiftOf(p, s, d).Some? ==> exists i :: 0 <= i < |sorted| && sorted[i].0 == s && sorted[i].1 == d) &&
            (forall i, j :: 0 <= i < j < |sorted| ==> sorted[i].0 != sorted[j].0 || sorted[i].1 != sorted[j].1) &&
            (forall i, j :: 0 <= i < j < |sorted| ==> sorted[i].1 <= sorted[j].1)
  {
    var sorted := InsertionSort(rs, DateLe);
    DateLeTotal();
    SortSorted(rs, DateLe);
    PermutationKeepsDistinct(rs, sorted);
    forall i | 0 <= i < |sorted| ensures Stored(p, sorted[i]) {
      assert sorted[i] in multiset(rs);
    }
    forall s, d | ShiftOf(p, s, d).Some?
      ensures exists i :: 0 <= i < |sorted| && sorted[i].0 == s && sorted[i].1 == d
    {
      var e := (s, d, ShiftOf(p, s, d).value);
      assert e in rs;
      assert e in multiset(sorted);
      var i :| 0 <= i < |sorted| && sorted[i] == e;
    }
    forall i, j | 0 <= i < j < |sorted| ensures sorted[i].0 != sorted[j].0 || sorted[i].1 != sorted[j].1 {
      assert Stored(p, sorted[i]) && Stored(p, sorted[j]);
    }
    forall i, j | 0 <= i < j < |sorted| ensures sorted[i].1 <= sorted[j].1 {
      assert DateLe(sorted[i], sorted[j]);
    }
  }

  // ----------------------------------------------------------------- examples

  /** Two days off recorded on a Monday and the Wednesday after are counted as two. */
  lemma TwoDaysOffCounted(staff: Uuid)
    ensures var monday := Jan15th2024;
            DaysOffInWeek(Plans.Assign(Plans.Assign(map[], staff, monday, DayOff), staff, monday + 2, DayOff), staff, monday) == 2
  {
    var monday := Jan15th2024;
    var p := Plans.Assign(Plans.Assign(map[], staff, monday, DayOff), staff, monday + 2, DayOff);
    assert DaysOffIn(p, staff, monday, 1) == 1;
    assert DaysOffIn(p, staff, monday, 2) == 1;
    assert DaysOffIn(p, staff, monday, 3) == 2;
    assert DaysOffIn(p, staff, monday, 4) == 2;
    assert DaysOffIn(p, staff, monday, 5) == 2;
    assert DaysOffIn(p, staff, monday, 6) == 2;
  }
}
