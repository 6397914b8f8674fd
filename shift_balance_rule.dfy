/**
 * The shift-balance rule: on any date, the number of morning and evening
 * shifts may differ by at most a configured amount once the proposed shift
 * is added. Days off do not take part.
 */
module ShiftBalanceRule {
  import opened Types
  import opened Plan
  import opened RuleContext
  import opened Text

  function AbsDiff(a: nat, b: nat): nat
  {
    if a >= b then a - b else b - a
  }

  /** Per shift kind, how many staff members already have it on the context's date. */
  method CountShiftsOnDate(context: AssignmentContext) returns (counts: map<Shift, nat>)
    ensures counts.Keys == {Morning, Evening, DayOff}
    ensures forall x :: x in counts ==> counts[x] == Headcount(context.assignments, context.date, x)
  {
    var p, date := context.assignments, context.date;
    counts := map[Morning := 0, Evening := 0, DayOff := 0];
    var rest := p.Keys;
    ghost var done: set<Uuid> := {};
    TallyStart(p, date, counts);
    while rest != {}
      invariant rest <= p.Keys && done == p.Keys - rest
      invariant Tallied(p, date, done, counts)
      decreases rest
    {
      var staff :| staff in rest;
      var staffAssignments := p[staff];
      if date in staffAssignments {
        var shift := staffAssignments[date];
        TallyStep(p, date, done, counts, staff, shift);
        counts := counts[shift := counts[shift] + 1];
      } else {
        TallySkip(p, date, done, counts, staff);
      }
      PartitionStep(p.Keys, rest, done, staff);
      rest := rest - {staff};
      done := done + {staff};
    }
    assert done == p.Keys;
    TallyDone(p, date, counts);
  }

  /** `counts` holds, per shift kind, how many of `done` have it on `date`. */
  ghost predicate Tallied(p: Plan, date: Date, done: set<Uuid>, counts: map<Shift, nat>)
  {
    counts.Keys == {Morning, Evening, DayOff} &&
    forall x :: x in counts ==> counts[x] == |HoldersAmong(p, done, date, x)|
  }

  lemma TallyDone(p: Plan, date: Date, counts: map<Shift, nat>)
    requires Tallied(p, date, p.Keys, counts)
    ensures counts.Keys == {Morning, Evening, DayOff}
    ensures forall x :: x in counts ==> counts[x] == Headcount(p, date, x)
  {
  }

  lemma TallyStart(p: Plan, date: Date, counts: map<Shift, nat>)
    requires counts == map[Morning := 0, Evening := 0, DayOff := 0]
    ensures Tallied(p, date, {}, counts)
  {
    forall x | x in counts ensures counts[x] == |HoldersAmong(p, {}, date, x)| {
      assert HoldersAmong(p, {}, date, x) == {};
    }
  }

  lemma TallyStep(p: Plan, date: Date, done: set<Uuid>, counts: map<Shift, nat>, staff: Uuid, shift: Shift)
    requires Tallied(p, date, done, counts) && staff !in done
    requires staff in p && date in p[staff] && p[staff][date] == shift
    ensures Tallied(p, date, done + {staff}, counts[shift := counts[shift] + 1])
  {
    assert ShiftOf(p, staff, date) == Some(shift);
    forall x | x in counts ensures counts[shift := counts[shift] + 1][x] == |HoldersAmong(p, done + {staff}, date, x)| {
      HeadcountAmongAdd(p, done, staff, date, x);
    }
  }

  lemma TallySkip(p: Plan, date: Date, done: set<Uuid>, counts: map<Shift, nat>, staff: Uuid)
    requires Tallied(p, date, done, counts) && staff !in done
    requires staff in p && date !in p[staff]
    ensures Tallied(p, date, done + {staff}, counts)
  {
    assert ShiftOf(p, staff, date) == None;
    forall x | x in counts ensures counts[x] == |HoldersAmong(p, done + {staff}, date, x)| {
      HeadcountAmongAdd(p, done, staff, date, x);
    }
  }

  /** Whether adding the proposed shift would leave mornings and evenings too far apart. */
  ghost predicate Violated(maxDailyShiftDifference: nat, context: AssignmentContext)
  {
    var p, d := context.assignments, context.date;
    context.shift != DayOff &&
    AbsDiff(Headcount(p, d, Morning) + (if context.shift == Morning then 1 else 0),
            Headcount(p, d, Evening) + (if context.shift == Evening then 1 else 0))
      > maxDailyShiftDifference
  }

  function Message(shift: Shift, date: Date, morningCount: nat, eveningCount: nat, maxDailyShiftDifference: nat): string
  {
    var shiftName := match shift
      case Morning => "morning"
      case Evening => "evening"
      case DayOff => "unknown";
    "Assigning " + shiftName + " shift on " + DateText(date) + " would create imbalance: " + NatText(morningCount) +
    " morning vs " + NatText(eveningCount) + " evening (max difference: " + NatText(maxDailyShiftDifference) + ")"
  }

  method Validate(maxDailyShiftDifference: nat, context: AssignmentContext) returns (r: Outcome)
    ensures r.Fail? <==> Violated(maxDailyShiftDifference, context)
    ensures r.Fail? ==>
              var p, d := context.assignments, context.date;
              r == Fail(InvalidInput(Message(context.shift, d,
                                             Headcount(p, d, Morning) + (if context.shift == Morning then 1 else 0),
                                             Headcount(p, d, Evening) + (if context.shift == Evening then 1 else 0),
                                             maxDailyShiftDifference)))
  {
    if context.shift == DayOff {
      return Pass;
    }
    var counts := CountShiftsOnDate(context);
    counts := counts[context.shift := counts[context.shift] + 1];
    var morningCount := counts[Morning];
    var eveningCount := counts[Evening];
    var diff := AbsDiff(morningCount, eveningCount);
    if diff > maxDailyShiftDifference {
      return Fail(InvalidInput(Message(context.shift, context.date, morningCount, eveningCount, maxDailyShiftDifference)));
    }
    return Pass;
  }

  /** The rule treats mornings and evenings alike: exchanging them everywhere keeps every verdict. */
  lemma MirrorSymmetric(maxDailyShiftDifference: nat, context: AssignmentContext)
    ensures Violated(maxDailyShiftDifference, context)
        <==> Violated(maxDailyShiftDifference,
                      context.(assignments := SwapShifts(context.assignments), shift := SwapShift(context.shift)))
  {
    HeadcountOfSwapped(context.assignments, context.date, Morning);
    HeadcountOfSwapped(context.assignments, context.date, Evening);
  }

  /** A shift the rule accepts into an empty slot keeps the date within the limit once recorded. */
  lemma AcceptedKeepsBalance(maxDailyShiftDifference: nat, context: AssignmentContext)
    requires context.shift != DayOff && !Violated(maxDailyShiftDifference, context)
    requires ShiftOf(context.assignments, context.staffId, context.date) == None
    ensures var q := Assign(context.assignments, context.staffId, context.date, context.shift);
            AbsDiff(Headcount(q, context.date, Morning), Headcount(q, context.date, Evening)) <= maxDailyShiftDifference
  {
    HeadcountAfterAssign(context.assignments, context.staffId, context.date, context.shift, Morning);
    HeadcountAfterAssign(context.assignments, context.staffId, context.date, context.shift, Evening);
  }

  /** Two mornings and a limit of one: a third morning is refused. */
  lemma ThirdMorningRefused(s1: Uuid, s2: Uuid, s3: Uuid)
    requires s1 != s2
    ensures var d := Jan15th2024;
            Violated(1, AssignmentContext(map[s1 := map[d := Morning], s2 := map[d := Morning]], s3, d, Morning))
  {
    var d := Jan15th2024;
    var p := map[s1 := map[d := Morning], s2 := map[d := Morning]];
    assert HoldersAmong(p, p.Keys, d, Morning) == {s1, s2};
    assert HoldersAmong(p, p.Keys, d, Evening) == {};
  }

  /** One morning, one evening and a limit of one: another evening is accepted. */
  lemma EveningAfterBalancedPairAccepted(s1: Uuid, s2: Uuid, s3: Uuid)
    requires s1 != s2
    ensures var d := Jan15th2024;
            !Violated(1, AssignmentContext(map[s1 := map[d := Morning], s2 := map[d := Evening]], s3, d, Evening))
  {
    var d := Jan15th2024;
    var p := map[s1 := map[d := Morning], s2 := map[d := Evening]];
    assert HoldersAmong(p, p.Keys, d, Morning) == {s1};
    assert HoldersAmong(p, p.Keys, d, Evening) == {s2};
  }
}
