/**
 * The minimum-days-off rule: a work shift is refused when, even if every
 * later day of the same Monday-to-Sunday week became a day off, the staff
 * member could no longer reach the weekly minimum.
 */
module MinDaysOffRule {
  import opened Types
  import opened Plan
  import opened RuleContext
  import opened Text

  /** The days of the week after `date`, counted up to the Sunday of the week that starts `weekStart`. */
  function CountRemainingDaysInWeek(date: Date, weekStart: Date): nat
  {
    var weekEnd := weekStart + 6;
    if date > weekEnd then 0 else weekEnd - date
  }

  /** The remaining days are exactly the later dates of the same week. */
  lemma RemainingDaysAreLaterDaysOfWeek(date: Date)
    ensures CountRemainingDaysInWeek(date, WeekStart(date)) == 6 - Weekday(date)
    ensures forall d :: d in DateRange(date + 1, CountRemainingDaysInWeek(date, WeekStart(date)))
                    <==> date < d && WeekStart(d) == WeekStart(date)
  {
    var ws := WeekStart(date);
    WeekStartUnique(ws, date);
    forall d | date < d && WeekStart(d) == ws
      ensures d <= ws + 6
    {
    }
    forall d | date < d <= ws + 6
      ensures WeekStart(d) == ws
    {
      WeekStartUnique(ws, d);
    }
  }

  /** Days off already recorded for the context's staff member in the week from `weekStart`. */
  method CountDaysOffInWeek(context: AssignmentContext, weekStart: Date) returns (count: nat)
    ensures count == DaysOffInWeek(context.assignments, context.staffId, weekStart)
  {
    if context.staffId !in context.assignments {
      DaysOffZeroWithoutRow(context.assignments, context.staffId, weekStart, 7);
      return 0;
    }
    var staffAssignments := context.assignments[context.staffId];
    count := 0;
    for dayOffset := 0 to 7
      invariant count == DaysOffIn(context.assignments, context.staffId, weekStart, dayOffset)
    {
      var date := weekStart + dayOffset;
      if date in staffAssignments && staffAssignments[date] == DayOff {
        count := count + 1;
      }
    }
  }

  lemma {:induction false} DaysOffZeroWithoutRow(p: Plan, staff: Uuid, from: Date, k: nat)
    requires staff !in p
    ensures DaysOffIn(p, staff, from, k) == 0
  {
    if k > 0 {
      DaysOffZeroWithoutRow(p, staff, from, k - 1);
    }
  }

  /** The rule's verdict: a work shift that leaves the weekly minimum out of reach. */
  ghost predicate Violated(minDaysOff: nat, context: AssignmentContext)
  {
    context.shift != DayOff &&
    WeekDaysOff(context) + (6 - Weekday(context.date)) < minDaysOff
  }

  function Message(date: Date, minDaysOff: nat): string
  {
    "Assigning work shift on " + DateText(date) + " would make it impossible to meet minimum " +
    NatText(minDaysOff) + " days off per week"
  }

  method Validate(minDaysOff: nat, context: AssignmentContext) returns (r: Outcome)
    ensures r.Fail? <==> Violated(minDaysOff, context)
    ensures r.Fail? ==> r == Fail(InvalidInput(Message(context.date, minDaysOff)))
  {
    if context.shift == DayOff {
      return Pass;
    }
    var weekStart := WeekStart(context.date);
    var currentDaysOff := CountDaysOffInWeek(context, weekStart);
    var remainingDays := CountRemainingDaysInWeek(context.date, weekStart);
    RemainingDaysAreLaterDaysOfWeek(context.date);
    var maxPossibleDaysOff := currentDaysOff + remainingDays;
    if maxPossibleDaysOff < minDaysOff {
      return Fail(InvalidInput(Message(context.date, minDaysOff)));
    }
    return Pass;
  }

  /** A day off never violates the minimum. */
  lemma DayOffNeverViolates(minDaysOff: nat, context: AssignmentContext)
    requires context.shift == DayOff
    ensures !Violated(minDaysOff, context)
  {
  }

  /** Recording more days off in the week can only lift a violation, never cause one. */
  lemma {:induction false} MoreDaysOffHelp(minDaysOff: nat, c1: AssignmentContext, c2: AssignmentContext)
    requires c1.staffId == c2.staffId && c1.date == c2.date && c1.shift == c2.shift
    requires forall d :: ShiftOf(c1.assignments, c1.staffId, d) == Some(DayOff) ==> ShiftOf(c2.assignments, c2.staffId, d) == Some(DayOff)
    ensures Violated(minDaysOff, c2) ==> Violated(minDaysOff, c1)
  {
    DaysOffMonotone(c1.assignments, c2.assignments, c1.staffId, WeekStart(c1.date), 7);
  }

  /** Mornings from Monday to Saturday and a minimum of two: a Sunday morning is refused. */
  lemma SundayAfterSixWorkdaysRefused(staff: Uuid)
    ensures var monday := Jan15th2024;
            var row := map[monday := Morning, monday + 1 := Morning, monday + 2 := Morning,
                           monday + 3 := Morning, monday + 4 := Morning, monday + 5 := Morning];
            Violated(2, AssignmentContext(map[staff := row], staff, monday + 6, Morning))
  {
    var monday := Jan15th2024;
    var row := map[monday := Morning, monday + 1 := Morning, monday + 2 := Morning,
                   monday + 3 := Morning, monday + 4 := Morning, monday + 5 := Morning];
    var p := map[staff := row];
    WeekStartUnique(monday, monday + 6);
    NoDaysOffInRow(p, staff, monday, 7);
  }

  lemma {:induction false} NoDaysOffInRow(p: Plan, staff: Uuid, from: Date, k: nat)
    requires forall d :: from <= d < from + k ==> ShiftOf(p, staff, d) != Some(DayOff)
    ensures DaysOffIn(p, staff, from, k) == 0
  {
    if k > 0 {
      NoDaysOffInRow(p, staff, from, k - 1);
    }
  }

  /** An empty schedule and a minimum of two: a Monday morning is accepted. */
  lemma MondayOnEmptyScheduleAccepted(staff: Uuid)
    ensures !Violated(2, AssignmentContext(map[], staff, Jan15th2024, Morning))
  {
    WeekStartUnique(Jan15th2024, Jan15th2024);
    DaysOffZeroWithoutRow(map[], staff, Jan15th2024, 7);
  }
}
