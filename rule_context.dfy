/**
 * What every scheduling rule is asked about: a proposed assignment of one
 * shift to one staff member on one date, against the schedule so far.
 */
module RuleContext {
  import opened Types
  import opened Plan

  datatype AssignmentContext = AssignmentContext(
    assignments: Plan,
    staffId: Uuid,
    date: Date,
    shift: Shift)

  /** The days off the context's staff member has in the week of its date: what both days-off rules weigh. */
  function WeekDaysOff(context: AssignmentContext): nat
  {
    DaysOffInWeek(context.assignments, context.staffId, WeekStart(context.date))
  }

  /** Only the context's own staff member's shifts of that week count. */
  lemma WeekDaysOffLocal(c1: AssignmentContext, c2: AssignmentContext)
    requires c1.date == c2.date
    requires forall d :: WeekStart(c1.date) <= d < WeekStart(c1.date) + 7 ==>
               ShiftOf(c1.assignments, c1.staffId, d) == ShiftOf(c2.assignments, c2.staffId, d)
    ensures WeekDaysOff(c1) == WeekDaysOff(c2)
  {
    DaysOffLocal(c1.assignments, c2.assignments, c1.staffId, c2.staffId, WeekStart(c1.date), 7);
  }
}
