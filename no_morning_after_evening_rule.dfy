/**
 * The rest rule: nobody works a morning shift on the day after an evening
 * shift. It is checked from both sides: a morning after a recorded evening,
 * and an evening before a recorded morning.
 */
module NoMorningAfterEveningRule {
  import opened Types
  import opened Plan
  import opened RuleContext
  import opened Text

  function PreviousShift(context: AssignmentContext): (r: Option<Shift>)
    ensures r == ShiftOf(context.assignments, context.staffId, context.date - 1)
  {
    if context.staffId in context.assignments && context.date - 1 in context.assignments[context.staffId]
    then Some(context.assignments[context.staffId][context.date - 1])
    else None
  }

  function NextShift(context: AssignmentContext): (r: Option<Shift>)
    ensures r == ShiftOf(context.assignments, context.staffId, context.date + 1)
  {
    if context.staffId in context.assignments && context.date + 1 in context.assignments[context.staffId]
    then Some(context.assignments[context.staffId][context.date + 1])
    else None
  }

  function MorningMessage(date: Date): string
  {
    "Cannot assign morning shift on " + DateText(date) + " after evening shift on previous day"
  }

  function EveningMessage(date: Date): string
  {
    "Cannot assign evening shift on " + DateText(date) + " before morning shift on next day"
  }

  /** The pattern the rule forbids: an evening on one day and a morning on the next. */
  ghost predicate Violated(context: AssignmentContext)
  {
    var p, s, d := context.assignments, context.staffId, context.date;
    (context.shift == Morning && ShiftOf(p, s, d - 1) == Some(Evening)) ||
    (context.shift == Evening && ShiftOf(p, s, d + 1) == Some(Morning))
  }

  function Validate(context: AssignmentContext): (r: Outcome)
    ensures r.Fail? <==> Violated(context)
    ensures r.Fail? ==> r.error == InvalidInput(if context.shift == Morning then MorningMessage(context.date) else EveningMessage(context.date))
  {
    if context.shift == Morning && PreviousShift(context) == Some(Evening) then
      Fail(InvalidInput(MorningMessage(context.date)))
    else if context.shift == Evening && NextShift(context) == Some(Morning) then
      Fail(InvalidInput(EveningMessage(context.date)))
    else
      Pass
  }

  /**
   * Whatever order the two shifts of the forbidden pattern are proposed in,
   * the second one is refused.
   */
  lemma ForbiddenFromBothSides(p: Plan, staff: Uuid, evening: Date)
    ensures ShiftOf(p, staff, evening) == Some(Evening) ==>
              Validate(AssignmentContext(p, staff, evening + 1, Morning)).Fail?
    ensures ShiftOf(p, staff, evening + 1) == Some(Morning) ==>
              Validate(AssignmentContext(p, staff, evening, Evening)).Fail?
  {
    if ShiftOf(p, staff, evening) == Some(Evening) {
      assert Violated(AssignmentContext(p, staff, evening + 1, Morning));
    }
    if ShiftOf(p, staff, evening + 1) == Some(Morning) {
      assert Violated(AssignmentContext(p, staff, evening, Evening));
    }
  }

  /** Assigning a day off is never refused by this rule. */
  lemma DayOffNeverViolates(context: AssignmentContext)
    requires context.shift == DayOff
    ensures Validate(context) == Pass
  {
  }

  /** An evening on Monday: a Tuesday morning is refused. */
  lemma MorningAfterEveningRefused(staff: Uuid)
    ensures Validate(AssignmentContext(map[staff := map[Jan15th2024 := Evening]], staff, Jan15th2024 + 1, Morning)).Fail?
  {
  }

  /** A morning on Monday: a Tuesday morning is accepted. */
  lemma MorningAfterMorningAccepted(staff: Uuid)
    ensures Validate(AssignmentContext(map[staff := map[Jan15th2024 := Morning]], staff, Jan15th2024 + 1, Morning)).Pass?
  {
  }
}
