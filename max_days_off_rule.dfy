/**
 * The maximum-days-off rule: a day off is refused when the staff member
 * already has the weekly maximum of days off in that Monday-to-Sunday week.
 */
module MaxDaysOffRule {
  import opened Types
  import opened Plan
  import opened RuleContext
  import opened Text
  import MinDaysOffRule

  ghost predicate Violated(maxDaysOff: nat, context: AssignmentContext)
  {
    context.shift == DayOff &&
    WeekDaysOff(context) + 1 > maxDaysOff
  }

  function Message(date: Date, maxDaysOff: nat): string
  {
    "Assigning day off on " + DateText(date) + " would exceed maximum " + NatText(maxDaysOff) + " days off per week"
  }

  method Validate(maxDaysOff: nat, context: AssignmentContext) returns (r: Outcome)
    ensures r.Fail? <==> Violated(maxDaysOff, context)
    ensures r.Fail? ==> r == Fail(InvalidInput(Message(context.date, maxDaysOff)))
  {
    if context.shift != DayOff {
      return Pass;
    }
    var weekStart := WeekStart(context.date);
    // The rule's own week-start and counting helpers are the same code as the minimum rule's.
    var currentDaysOff := MinDaysOffRule.CountDaysOffInWeek(context, weekStart);
    if currentDaysOff + 1 > maxDaysOff {
      return Fail(InvalidInput(Message(context.date, maxDaysOff)));
    }
    return Pass;
  }

  /** Work shifts are never refused by the maximum. */
  lemma WorkShiftNeverViolates(maxDaysOff: nat, context: AssignmentContext)
    requires context.shift != DayOff
    ensures !Violated(maxDaysOff, context)
  {
  }

  /** With a maximum of zero every day off is refused. */
  lemma ZeroMaximumRefusesEveryDayOff(context: AssignmentContext)
    requires context.shift == DayOff
    ensures Violated(0, context)
  {
  }

  /** Recording more days off in the week can only cause a refusal, never lift one. */
  lemma {:induction false} MoreDaysOffHurt(maxDaysOff: nat, c1: AssignmentContext, c2: AssignmentContext)
    requires c1.staffId == c2.staffId && c1.date == c2.date && c1.shift == c2.shift
    requires forall d :: ShiftOf(c1.assignments, c1.staffId, d) == Some(DayOff) ==> ShiftOf(c2.assignments, c2.staffId, d) == Some(DayOff)
    ensures Violated(maxDaysOff, c1) ==> Violated(maxDaysOff, c2)
  {
    DaysOffMonotone(c1.assignments, c2.assignments, c1.staffId, WeekStart(c1.date), 7);
  }

  /**
   * A day off accepted on a date not yet filled keeps the week within the
   * maximum once it is recorded.
   */
  lemma {:induction false} AcceptedDayOffStaysWithinMax(maxDaysOff: nat, context: AssignmentContext)
    requires context.shift == DayOff && !Violated(maxDaysOff, context)
    requires ShiftOf(context.assignments, context.staffId, context.date) == None
    ensures DaysOffInWeek(Assign(context.assignments, context.staffId, context.date, DayOff),
                          context.staffId, WeekStart(context.date)) <= maxDaysOff
  {
    DaysOffAfterAssign(context.assignments, context.staffId, WeekStart(context.date), 7, context.date, DayOff);
  }

  /** Days off on Monday and Tuesday and a maximum of two: a Wednesday day off is refused. */
  lemma ThirdDayOffRefused(staff: Uuid)
    ensures var monday := Jan15th2024;
            Violated(2, AssignmentContext(map[staff := map[monday := DayOff, monday + 1 := DayOff]], staff, monday + 2, DayOff))
  {
    var monday := Jan15th2024;
    var p := map[staff := map[monday := DayOff, monday + 1 := DayOff]];
    WeekStartUnique(monday, monday + 2);
    assert ShiftOf(p, staff, monday) == Some(DayOff) && ShiftOf(p, staff, monday + 1) == Some(DayOff);
    assert DaysOffIn(p, staff, monday, 0) == 0;
    assert DaysOffIn(p, staff, monday, 1) == 1;
    assert DaysOffIn(p, staff, monday, 2) == 2;
    DaysOffBoundedBelow(p, staff, monday, 2, 7);
  }

  lemma {:induction false} DaysOffBoundedBelow(p: Plan, staff: Uuid, from: Date, j: nat, k: nat)
    requires j <= k
    ensures DaysOffIn(p, staff, from, j) <= DaysOffIn(p, staff, from, k)
  {
    if j < k {
      DaysOffBoundedBelow(p, staff, from, j, k - 1);
    }
  }

  /** One day off on Monday and a maximum of two: a Tuesday day off is accepted. */
  lemma SecondDayOffAccepted(staff: Uuid)
    ensures var monday := Jan15th2024;
            !Violated(2, AssignmentContext(map[staff := map[monday := DayOff]], staff, monday + 1, DayOff))
  {
    var monday := Jan15th2024;
    var p := map[staff := map[monday := DayOff]];
    WeekStartUnique(monday, monday + 1);
    OnlyMondayOff(p, staff, monday, 7);
  }

  lemma {:induction false} OnlyMondayOff(p: Plan, staff: Uuid, monday: Date, k: nat)
    requires k >= 1
    requires ShiftOf(p, staff, monday) == Some(DayOff)
    requires forall d :: monday < d < monday + k ==> ShiftOf(p, staff, d) == None
    ensures DaysOffIn(p, staff, monday, k) == 1
  {
    if k > 1 {
      OnlyMondayOff(p, staff, monday, k - 1);
    }
  }
}
