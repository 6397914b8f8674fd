/**
 * The older greedy scheduler over the schedule tracker: every day of the
 * 28-day period it offers mornings, then evenings, then days off to the
 * whole staff list, asking the tracker's three violation checks each time,
 * and finally checks every staff member's weekly days off.
 */
module GreedyScheduler {
  import opened Types
  import opened Plan
  import opened RuleContext
  import opened Rules
  import opened Worklist
  import opened SchedulingState
  import opened Text
  import NoMorningAfterEveningRule
  import ShiftBalanceRule
  import MinDaysOffRule
  import MaxDaysOffRule
  import SG = ScheduleGenerator

  // ------------------------------------------------------------------ checks

  /** The greedy checks, written as the list of rules the rule-driven generator takes. */
  function AsRules(rules: SchedulingRules): seq<Rule>
  {
    [NoMorningAfterEvening, MaxDaysOff(rules.maxDaysOffPerWeek), MinDaysOff(rules.minDaysOffPerWeek),
     ShiftBalance(rules.maxDailyShiftDifference)]
  }

  /** None of the three violation checks objects to the proposed assignment. */
  ghost predicate Assignable(rules: SchedulingRules, context: AssignmentContext)
  {
    !NoMorningAfterEveningRule.Violated(context) &&
    !ViolatesDaysOff(rules, context) &&
    !ShiftBalanceRule.Violated(rules.maxDailyShiftDifference, context)
  }

  /** The greedy checks let through exactly what the four configured rules all admit. */
  lemma AssignableIsAdmitsAll(rules: SchedulingRules, context: AssignmentContext)
    ensures Assignable(rules, context) <==> AdmitsAll(AsRules(rules), context)
  {
    var rs := AsRules(rules);
    assert AdmitsAll(rs, context) <==>
      Admits(rs[0], context) && Admits(rs[1], context) && Admits(rs[2], context) && Admits(rs[3], context);
    if context.shift == DayOff {
      MinDaysOffRule.DayOffNeverViolates(rules.minDaysOffPerWeek, context);
    } else {
      MaxDaysOffRule.WorkShiftNeverViolates(rules.maxDaysOffPerWeek, context);
    }
  }

  /** `can_assign`: the conjunction of the three checks, in the order the source asks them. */
  method CanAssign(rules: SchedulingRules, state: ScheduleState, staffId: Uuid, date: Date, shift: Shift) returns (r: bool)
    ensures r <==> Assignable(rules, AssignmentContext(state.assignments, staffId, date, shift))
  {
    if state.ViolatesNoMorningAfterEvening(staffId, date, shift) {
      return false;
    }
    var daysOff := state.ViolatesDaysOffRules(staffId, date, shift, rules);
    if daysOff {
      return false;
    }
    var balance := state.ViolatesShiftBalance(date, shift, rules);
    if balance {
      return false;
    }
    return true;
  }

  // ------------------------------------------------------------------ one shift type

  /**
   * `assign_shift_type`: walks the worklist with an index and gives `shift`
   * to each staff member the checks allow, until `targetCount` are placed;
   * a placed one is removed from the worklist, so the index stays put. It
   * ends where the rule-driven generator's scan with the four configured
   * rules ends.
   */
  method AssignShiftType(rules: SchedulingRules, state: ScheduleState, unassignedStaff: seq<Uuid>, date: Date, shift: Shift, targetCount: nat)
    returns (assignedCount: nat, remaining: seq<Uuid>)
    modifies state
    ensures var r := SG.Scan(AsRules(rules), old(state.assignments), unassignedStaff, date, shift, targetCount);
            state.assignments == r.plan && remaining == r.kept && assignedCount == |r.placed|
  {
    ghost var start := state.assignments;
    ghost var rs := AsRules(rules);
    remaining := unassignedStaff;
    assignedCount := 0;
    var i := 0;
    // `done` are the entries decided so far, `rest` the others, and `r` is where the scan of `done` ends
    ghost var done, rest := [], unassignedStaff;
    ghost var r := SG.ScanResult(start, [], []);
    while i < |remaining| && assignedCount < targetCount
      invariant unassignedStaff == done + rest && r == SG.Scan(rs, start, done, date, shift, targetCount)
      invariant state.assignments == r.plan && remaining == r.kept + rest
      invariant i == |r.kept| && assignedCount == |r.placed|
      decreases |remaining| - i
    {
      var staffId := remaining[i];
      assert staffId == rest[0];
      AssignableIsAdmitsAll(rules, AssignmentContext(state.assignments, staffId, date, shift));
      var ok := CanAssign(rules, state, staffId, date, shift);
      if ok {
        state.Assign(staffId, date, shift);
        remaining := remaining[..i] + remaining[i + 1..];
        RemoveAfter(r.kept, rest);
        assignedCount := assignedCount + 1;
      } else {
        KeepAfter(r.kept, rest);
        i := i + 1;
      }
      SG.ScanSnoc(rs, start, done, staffId, date, shift, targetCount);
      KeepAfter(done, rest);
      r := SG.ScanNext(rs, r, staffId, date, shift, targetCount);
      done, rest := done + [staffId], rest[1..];
    }
    SG.ScanEnd(rs, start, done, rest, date, shift, targetCount);
  }

  /**
   * A staff member left over after the morning and evening passes: a day
   * off if the checks allow it, else a morning, else an evening, else a
   * day off regardless.
   */
  method AssignLeftover(rules: SchedulingRules, state: ScheduleState, staffId: Uuid, date: Date)
    modifies state
    ensures state.assignments ==
      Assign(old(state.assignments), staffId, date, SG.TryAssignChoice(AsRules(rules), old(state.assignments), staffId, date, DayOff))
  {
    ghost var p := state.assignments;
    SG.DayOffFallbackOrder(AsRules(rules), p, staffId, date);
    AssignableIsAdmitsAll(rules, AssignmentContext(p, staffId, date, DayOff));
    AssignableIsAdmitsAll(rules, AssignmentContext(p, staffId, date, Morning));
    AssignableIsAdmitsAll(rules, AssignmentContext(p, staffId, date, Evening));
    var ok := CanAssign(rules, state, staffId, date, DayOff);
    if ok {
      state.Assign(staffId, date, DayOff);
      return;
    }
    ok := CanAssign(rules, state, staffId, date, Morning);
    if ok {
      state.Assign(staffId, date, Morning);
      return;
    }
    ok := CanAssign(rules, state, staffId, date, Evening);
    if ok {
      state.Assign(staffId, date, Evening);
    } else {
      state.Assign(staffId, date, DayOff);
    }
  }

  // ------------------------------------------------------------------ one day

  /** Where the morning pass of a greedy day ends: the worklist is the whole staff list, and the target a third of it. */
  ghost function GreedyMornings(rs: seq<Rule>, p: Plan, staffIds: seq<Uuid>, date: Date): (r: SG.ScanResult)
    ensures |r.placed| <= |r.kept|
  {
    SG.Scan(rs, p, staffIds, date, Morning, |staffIds| / 3)
  }

  /**
   * The evening target after the morning pass ended at `mornings`: half of
   * the shortened worklist's length less the morning count, so the staff
   * placed on mornings are taken off twice. It cannot go below zero,
   * because at most a third went to mornings.
   */
  function EveningTarget(mornings: SG.ScanResult): nat
    requires |mornings.placed| <= |mornings.kept|
  {
    (|mornings.kept| - |mornings.placed|) / 2
  }

  /** Where the evening pass ends after the morning pass ended at `mornings`. */
  ghost function GreedyEvenings(rs: seq<Rule>, mornings: SG.ScanResult, date: Date): SG.ScanResult
    requires |mornings.placed| <= |mornings.kept|
  {
    SG.Scan(rs, mornings.plan, mornings.kept, date, Evening, EveningTarget(mornings))
  }

  /** The plan after one greedy day: the two passes, then the left-over pass preferring a day off. */
  ghost function GreedyDayResult(rs: seq<Rule>, p: Plan, staffIds: seq<Uuid>, date: Date): Plan
  {
    var evenings := GreedyEvenings(rs, GreedyMornings(rs, p, staffIds, date), date);
    SG.Leftovers(rs, evenings.plan, evenings.kept, date)
  }

  /** The evening pass gives the evening shift to exactly the staff it places, and splits the morning pass's leftovers. */
  lemma EveningsSplit(rs: seq<Rule>, mornings: SG.ScanResult, date: Date)
    requires |mornings.placed| <= |mornings.kept|
    ensures var evenings := GreedyEvenings(rs, mornings, date);
            evenings.plan == AssignAll(mornings.plan, evenings.placed, date, Evening) &&
            forall s :: s in mornings.kept <==> s in evenings.placed || s in evenings.kept
  {
    SG.ScanSplit(rs, mornings.plan, mornings.kept, date, Evening, EveningTarget(mornings));
  }

  /**
   * On a date none of the listed staff has a shift on yet, a greedy day
   * gives each of them one and leaves every recorded shift alone.
   */
  lemma GreedyDayFills(rs: seq<Rule>, p: Plan, staffIds: seq<Uuid>, date: Date)
    requires forall s :: s in staffIds ==> ShiftOf(p, s, date).None?
    ensures SG.FillsDay(p, GreedyDayResult(rs, p, staffIds, date), staffIds, date)
  {
    SG.NobodyAssignedYet(p, staffIds, date);
    var mornings := GreedyMornings(rs, p, staffIds, date);
    SG.ScanSplit(rs, p, staffIds, date, Morning, |staffIds| / 3);
    EveningsSplit(rs, mornings, date);
    SG.StagesFillDay(rs, p, staffIds, date, staffIds, mornings, GreedyEvenings(rs, mornings, date));
  }

  /** `assign_shifts_for_day` of the greedy scheduler: the morning pass, the evening pass, and the left-over pass. */
  method AssignShiftsForDay(rules: SchedulingRules, state: ScheduleState, staffIds: seq<Uuid>, date: Date)
    modifies state
    ensures state.assignments == GreedyDayResult(AsRules(rules), old(state.assignments), staffIds, date)
  {
    ghost var before := state.assignments;
    ghost var rs := AsRules(rules);
    var unassignedStaff := staffIds;
    var targetMorning := |unassignedStaff| / 3;
    var morningAssigned, afterMornings := AssignShiftType(rules, state, unassignedStaff, date, Morning, targetMorning);
    ghost var afterMorningPlan := state.assignments;
    var targetEvening := (|afterMornings| - morningAssigned) / 2;
    var eveningAssigned, leftovers := AssignShiftType(rules, state, afterMornings, date, Evening, targetEvening);
    ghost var afterEvenings := state.assignments;
    assert GreedyEvenings(rs, GreedyMornings(rs, before, staffIds, date), date) ==
      SG.ScanResult(afterEvenings, SG.Scan(rs, afterMorningPlan, afterMornings, date, Evening, targetEvening).placed, leftovers);
    for k := 0 to |leftovers|
      invariant state.assignments == SG.Leftovers(rs, afterEvenings, leftovers[..k], date)
    {
      assert leftovers[..k + 1][..k] == leftovers[..k];
      AssignLeftover(rules, state, leftovers[k], date);
    }
    assert leftovers[..|leftovers|] == leftovers;
  }

  // ------------------------------------------------------------------ the period

  /**
   * The plan after every greedy day from `startDate` up to, not including,
   * `endDate`, built one day at a time from an empty one.
   */
  ghost function GreedyPeriod(rs: seq<Rule>, staffIds: seq<Uuid>, startDate: Date, endDate: Date): Plan
    decreases endDate - startDate
  {
    if endDate <= startDate then map[]
    else GreedyDayResult(rs, GreedyPeriod(rs, staffIds, startDate, endDate - 1), staffIds, endDate - 1)
  }

  /** The Monday `week` weeks after `startDate`. */
  function NthWeekStart(startDate: Date, week: nat): Date
  {
    startDate + 7 * week
  }

  /** Every listed staff member has between the minimum and the maximum of days off in the week from `weekStart`. */
  ghost predicate WeekWithinLimits(rules: SchedulingRules, p: Plan, staffIds: seq<Uuid>, weekStart: Date)
  {
    forall s :: s in staffIds ==>
      rules.minDaysOffPerWeek <= DaysOffInWeek(p, s, weekStart) <= rules.maxDaysOffPerWeek
  }

  /** The weekly limits hold in each of the four weeks of the period. */
  ghost predicate WeeklyRequirementsMet(rules: SchedulingRules, p: Plan, staffIds: seq<Uuid>, startDate: Date)
  {
    forall week: nat :: week < 4 ==> WeekWithinLimits(rules, p, staffIds, NthWeekStart(startDate, week))
  }

  function TooFewDaysOffMessage(staffId: Uuid, daysOff: nat, weekStart: Date, minimum: nat): string
  {
    "Staff " + UuidText(staffId) + " has only " + NatText(daysOff) + " days off in week starting " +
    DateText(weekStart) + ", minimum is " + NatText(minimum)
  }

  function TooManyDaysOffMessage(staffId: Uuid, daysOff: nat, weekStart: Date, maximum: nat): string
  {
    "Staff " + UuidText(staffId) + " has " + NatText(daysOff) + " days off in week starting " +
    DateText(weekStart) + ", maximum is " + NatText(maximum)
  }

  /**
   * The message for the first of `staff`, in list order, whose days off in
   * the week from `weekStart` fall outside the limits; below the minimum is
   * checked before above the maximum.
   */
  function WeekViolation(rules: SchedulingRules, p: Plan, staff: seq<Uuid>, weekStart: Date): Option<string>
  {
    if staff == [] then None
    else
      var daysOff := DaysOffInWeek(p, staff[0], weekStart);
      if daysOff < rules.minDaysOffPerWeek then Some(TooFewDaysOffMessage(staff[0], daysOff, weekStart, rules.minDaysOffPerWeek))
      else if daysOff > rules.maxDaysOffPerWeek then Some(TooManyDaysOffMessage(staff[0], daysOff, weekStart, rules.maxDaysOffPerWeek))
      else WeekViolation(rules, p, staff[1..], weekStart)
  }

  /** The message for the first violation in the weeks from `week` to the fourth, week by week. */
  function FirstViolation(rules: SchedulingRules, p: Plan, staffIds: seq<Uuid>, startDate: Date, week: nat): Option<string>
    decreases 4 - week
  {
    if week >= 4 then None
    else match WeekViolation(rules, p, staffIds, NthWeekStart(startDate, week))
      case Some(message) => Some(message)
      case None => FirstViolation(rules, p, staffIds, startDate, week + 1)
  }

  /** A week reports nothing exactly when every staff member in it is within the limits. */
  lemma {:induction false} WeekViolationIffOutside(rules: SchedulingRules, p: Plan, staff: seq<Uuid>, weekStart: Date)
    ensures WeekViolation(rules, p, staff, weekStart).None? <==> WeekWithinLimits(rules, p, staff, weekStart)
  {
    if staff != [] {
      WeekViolationIffOutside(rules, p, staff[1..], weekStart);
      assert forall s :: s in staff <==> s == staff[0] || s in staff[1..];
    }
  }

  /** The weeks from `week` on report nothing exactly when each of them is within the limits. */
  lemma {:induction false} FirstViolationIffUnmet(rules: SchedulingRules, p: Plan, staffIds: seq<Uuid>, startDate: Date, week: nat)
    ensures FirstViolation(rules, p, staffIds, startDate, week).None? <==>
            forall w: nat :: week <= w < 4 ==> WeekWithinLimits(rules, p, staffIds, NthWeekStart(startDate, w))
    decreases 4 - week
  {
    if week < 4 {
      WeekViolationIffOutside(rules, p, staffIds, NthWeekStart(startDate, week));
      FirstViolationIffUnmet(rules, p, staffIds, startDate, week + 1);
    }
  }

  /**
   * `validate_weekly_requirements`: checks the four weeks in order and,
   * within a week, the staff in list order, and reports the first staff
   * member below the minimum or above the maximum.
   */
  method ValidateWeeklyRequirements(rules: SchedulingRules, state: ScheduleState, staffIds: seq<Uuid>, startDate: Date)
    returns (r: Outcome)
    ensures var v := FirstViolation(rules, state.assignments, staffIds, startDate, 0);
            r == if v.None? then Pass else Fail(ValidationError(v.value))
    ensures r.Pass? <==> WeeklyRequirementsMet(rules, state.assignments, staffIds, startDate)
  {
    FirstViolationIffUnmet(rules, state.assignments, staffIds, startDate, 0);
    for week := 0 to 4
      invariant FirstViolation(rules, state.assignments, staffIds, startDate, 0) == FirstViolation(rules, state.assignments, staffIds, startDate, week)
    {
      var weekStart := NthWeekStart(startDate, week);
      for k := 0 to |staffIds|
        invariant WeekViolation(rules, state.assignments, staffIds, weekStart) == WeekViolation(rules, state.assignments, staffIds[k..], weekStart)
      {
        assert staffIds[k..][1..] == staffIds[k + 1..];
        var staffId := staffIds[k];
        var daysOff := state.CountDaysOffInWeek(staffId, weekStart);
        if daysOff < rules.minDaysOffPerWeek {
          return Fail(ValidationError(TooFewDaysOffMessage(staffId, daysOff, weekStart, rules.minDaysOffPerWeek)));
        }
        if daysOff > rules.maxDaysOffPerWeek {
          return Fail(ValidationError(TooManyDaysOffMessage(staffId, daysOff, weekStart, rules.maxDaysOffPerWeek)));
        }
      }
    }
    return Pass;
  }

  /** The day loop of `generate_schedule`: each day of the period filled in turn on the empty tracker. */
  method FillPeriod(rules: SchedulingRules, state: ScheduleState, staffIds: seq<Uuid>, startDate: Date)
    requires state.assignments == map[]
    modifies state
    ensures state.assignments == GreedyPeriod(AsRules(rules), staffIds, startDate, startDate + SG.PeriodDays)
  {
    // the day offsets 0 .. 27, each standing for the date `startDate + offset`
    for currentDate := startDate to startDate + SG.PeriodDays
      invariant state.assignments == GreedyPeriod(AsRules(rules), staffIds, startDate, currentDate)
    {
      AssignShiftsForDay(rules, state, staffIds, currentDate);
    }
  }

  /**
   * The greedy days from `startDate` up to `endDate` give every listed staff
   * member a shift on each of those dates, and nobody a shift on any other.
   */
  lemma {:induction false} GreedyPeriodCovers(rs: seq<Rule>, staffIds: seq<Uuid>, startDate: Date, endDate: Date)
    requires staffIds != []
    ensures SG.CoversDays(GreedyPeriod(rs, staffIds, startDate, endDate), staffIds, startDate, endDate)
    decreases endDate - startDate
  {
    if startDate < endDate {
      var date := endDate - 1;
      GreedyPeriodCovers(rs, staffIds, startDate, date);
      var p := GreedyPeriod(rs, staffIds, startDate, date);
      GreedyDayFills(rs, p, staffIds, date);
      SG.CoversNextDay(p, GreedyPeriod(rs, staffIds, startDate, endDate), staffIds, startDate, date);
    }
  }

  /**
   * The error `generate_schedule` ends in, or `None` when it returns the
   * tracker holding `plan`, the plan the greedy days built: a start that is
   * not a Monday, an empty staff list, or the first weekly days-off
   * violation of `plan`.
   */
  function ScheduleError(rules: SchedulingRules, staffIds: seq<Uuid>, startDate: Date, plan: Plan): Option<DomainError>
  {
    if !IsMonday(startDate) then Some(ValidationError(SG.NotMondayMessage))
    else if staffIds == [] then Some(ValidationError(SG.NoStaffMessage))
    else
      var v := FirstViolation(rules, plan, staffIds, startDate, 0);
      if v.Some? then Some(ValidationError(v.value)) else None
  }

  /** A schedule is returned exactly when the start is a Monday, the staff list is not empty, and the weekly limits hold. */
  lemma ScheduleErrorNoneIff(rules: SchedulingRules, staffIds: seq<Uuid>, startDate: Date, plan: Plan)
    ensures ScheduleError(rules, staffIds, startDate, plan).None? <==>
              IsMonday(startDate) && staffIds != [] && WeeklyRequirementsMet(rules, plan, staffIds, startDate)
  {
    FirstViolationIffUnmet(rules, plan, staffIds, startDate, 0);
  }

  /**
   * `generate_schedule`: refuses a start that is not a Monday and an empty
   * staff list; otherwise runs the greedy days of the period over a new
   * tracker and returns it only if the weekly days-off requirements hold,
   * and the first violation otherwise.
   */
  method GenerateSchedule(rules: SchedulingRules, staffIds: seq<Uuid>, startDate: Date) returns (r: Result<ScheduleState>)
    ensures var plan := GreedyPeriod(AsRules(rules), staffIds, startDate, startDate + SG.PeriodDays);
            var error := ScheduleError(rules, staffIds, startDate, plan);
            (error.Some? ==> r == Err(error.value)) &&
            (error.None? ==> r.Ok? && fresh(r.value) && r.value.assignments == plan)
    ensures IsMonday(startDate) && staffIds != [] ==>
              var plan := GreedyPeriod(AsRules(rules), staffIds, startDate, startDate + SG.PeriodDays);
              UniformRows(plan, SG.PeriodDays) && plan.Keys == Members(staffIds) &&
              (r.Ok? <==> WeeklyRequirementsMet(rules, plan, staffIds, startDate))
  {
    if !IsMonday(startDate) {
      return Err(ValidationError(SG.NotMondayMessage));
    }
    if staffIds == [] {
      return Err(ValidationError(SG.NoStaffMessage));
    }
    var state := new ScheduleState();
    FillPeriod(rules, state, staffIds, startDate);
    GreedyPeriodRows(AsRules(rules), staffIds, startDate);
    var outcome := ValidateWeeklyRequirements(rules, state, staffIds, startDate);
    if outcome.Fail? {
      return Err(outcome.error);
    }
    return Ok(state);
  }

  /** The plan of the whole period has 28 dates for each listed staff member and nobody else. */
  lemma GreedyPeriodRows(rs: seq<Rule>, staffIds: seq<Uuid>, startDate: Date)
    requires staffIds != []
    ensures var plan := GreedyPeriod(rs, staffIds, startDate, startDate + SG.PeriodDays);
            UniformRows(plan, SG.PeriodDays) && plan.Keys == Members(staffIds)
  {
    var plan := GreedyPeriod(rs, staffIds, startDate, startDate + SG.PeriodDays);
    GreedyPeriodCovers(rs, staffIds, startDate, startDate + SG.PeriodDays);
    SG.CoveredRowsHaveWidth(plan, staffIds, startDate, SG.PeriodDays);
  }
}
