/**
 * The rule-driven schedule generator: 28 days from a Monday, day by day a
 * third of the open staff to mornings, half of the rest to evenings, and
 * everybody left a day off where the rules allow it, with fall-backs.
 */
module ScheduleGenerator {
  import opened Types
  import opened Plan
  import opened RuleContext
  import opened Rules
  import opened Sorting
  import opened Worklist
  import opened Entities

  const PeriodDays: nat := 28

  const NotMondayMessage: string := "Schedule must start on a Monday"
  const NoStaffMessage: string := "At least one staff member is required"

  /** Rule `i` refuses `context` and every rule before it admits it. */
  ghost predicate FirstRefusal(rules: seq<Rule>, context: AssignmentContext, i: nat)
  {
    i < |rules| && !Admits(rules[i], context) && forall j :: 0 <= j < i ==> Admits(rules[j], context)
  }

  /** Runs the rules in order and stops at the first refusal. */
  method ValidateAssignment(rules: seq<Rule>, context: AssignmentContext) returns (r: Outcome)
    ensures r.Pass? <==> AdmitsAll(rules, context)
    ensures r.Fail? ==> (r.error.InvalidInput? && exists i :: FirstRefusal(rules, context, i))
  {
    for k := 0 to |rules|
      invariant forall j :: 0 <= j < k ==> Admits(rules[j], context)
    {
      var verdict := Validate(rules[k], context);
      if verdict.Fail? {
        assert FirstRefusal(rules, context, k);
        return verdict;
      }
    }
    return Pass;
  }

  /** The staff of `staffIds`, in order and with repeats, who have no shift on `date` yet. */
  function Unassigned(p: Plan, staffIds: seq<Uuid>, date: Date): (u: seq<Uuid>)
    ensures forall s :: s in u <==> s in staffIds && ShiftOf(p, s, date) == None
    ensures |u| <= |staffIds|
  {
    if staffIds == [] then []
    else (if ShiftOf(p, staffIds[0], date) == None then [staffIds[0]] else []) + Unassigned(p, staffIds[1..], date)
  }

  /** Each of `placed`, in turn, was admitted by every rule against the schedule as it stood. */
  ghost predicate PlacedByRules(rules: seq<Rule>, p: Plan, placed: seq<Uuid>, date: Date, shift: Shift)
    decreases |placed|
  {
    placed == [] ||
    var init := placed[..|placed| - 1];
    PlacedByRules(rules, p, init, date, shift) &&
    AdmitsAll(rules, AssignmentContext(AssignAll(p, init, date, shift), placed[|placed| - 1], date, shift))
  }

  /** Where a scan for one shift type ends: the plan, the staff placed, and the staff left in the list. */
  datatype ScanResult = ScanResult(plan: Plan, placed: seq<Uuid>, kept: seq<Uuid>)

  /**
   * The greedy scan of `assign_shift_type`, entry by entry in list order: an
   * entry is placed when fewer than `target` are placed so far and every rule
   * admits it against the plan as it then stands, and stays in the list
   * otherwise.
   */
  ghost function Scan(rules: seq<Rule>, p: Plan, work: seq<Uuid>, date: Date, shift: Shift, target: nat): (r: ScanResult)
    ensures |r.placed| <= target && |r.placed| + |r.kept| == |work|
    decreases |work|
  {
    if work == [] then ScanResult(p, [], [])
    else ScanNext(rules, Scan(rules, p, work[..|work| - 1], date, shift, target), work[|work| - 1], date, shift, target)
  }

  /** One entry more: placed when the target is not reached and every rule admits it, kept otherwise. */
  ghost function ScanNext(rules: seq<Rule>, before: ScanResult, x: Uuid, date: Date, shift: Shift, target: nat): (r: ScanResult)
  {
    if |before.placed| < target && AdmitsAll(rules, AssignmentContext(before.plan, x, date, shift)) then
      ScanResult(Assign(before.plan, x, date, shift), before.placed + [x], before.kept)
    else
      ScanResult(before.plan, before.placed, before.kept + [x])
  }

  /** What a scan of `work` keeps true: the plan gives the shift to the placed staff, each admitted in turn, and the list is split. */
  ghost predicate ScanInvariant(rules: seq<Rule>, p: Plan, work: seq<Uuid>, date: Date, shift: Shift, r: ScanResult)
  {
    r.plan == AssignAll(p, r.placed, date, shift) &&
    PlacedByRules(rules, p, r.placed, date, shift) &&
    multiset(work) == multiset(r.placed) + multiset(r.kept)
  }

  /** One step of the scan keeps its invariant. */
  lemma ScanNextKeeps(rules: seq<Rule>, p: Plan, work: seq<Uuid>, x: Uuid, date: Date, shift: Shift, target: nat, before: ScanResult)
    requires ScanInvariant(rules, p, work, date, shift, before)
    ensures ScanInvariant(rules, p, work + [x], date, shift, ScanNext(rules, before, x, date, shift, target))
  {
    if |before.placed| < target && AdmitsAll(rules, AssignmentContext(before.plan, x, date, shift)) {
      PlacedByRulesExtend(rules, p, before.placed, date, shift, x);
    }
  }

  /**
   * A scan gives the shift to exactly the staff it places, each admitted by
   * every rule in turn, and splits the list into the placed and the kept.
   */
  lemma {:induction false} ScanSound(rules: seq<Rule>, p: Plan, work: seq<Uuid>, date: Date, shift: Shift, target: nat)
    ensures ScanInvariant(rules, p, work, date, shift, Scan(rules, p, work, date, shift, target))
    decreases |work|
  {
    if work != [] {
      var init := work[..|work| - 1];
      ScanSound(rules, p, init, date, shift, target);
      ScanNextKeeps(rules, p, init, work[|work| - 1], date, shift, target, Scan(rules, p, init, date, shift, target));
      LastSplit(work);
    }
  }

  /** Every entry the scan places or keeps comes from the list, and every entry of the list is one of them. */
  lemma ScanMembers(rules: seq<Rule>, p: Plan, work: seq<Uuid>, date: Date, shift: Shift, target: nat)
    ensures var r := Scan(rules, p, work, date, shift, target);
            forall s :: s in work <==> s in r.placed || s in r.kept
  {
    var r := Scan(rules, p, work, date, shift, target);
    ScanSound(rules, p, work, date, shift, target);
    forall s ensures s in work <==> s in r.placed || s in r.kept {
      assert s in work <==> s in multiset(work);
      assert s in r.placed <==> s in multiset(r.placed);
      assert s in r.kept <==> s in multiset(r.kept);
    }
  }

  /** A scan gives the shift to exactly the staff it places, and every entry of the list is placed or kept. */
  lemma ScanSplit(rules: seq<Rule>, p: Plan, work: seq<Uuid>, date: Date, shift: Shift, target: nat)
    ensures var r := Scan(rules, p, work, date, shift, target);
            r.plan == AssignAll(p, r.placed, date, shift) &&
            forall s :: s in work <==> s in r.placed || s in r.kept
  {
    ScanSound(rules, p, work, date, shift, target);
    ScanMembers(rules, p, work, date, shift, target);
  }

  /** Once `target` staff are placed, the entries after them are all kept and nothing else changes. */
  lemma {:induction false} ScanFull(rules: seq<Rule>, p: Plan, work: seq<Uuid>, rest: seq<Uuid>, date: Date, shift: Shift, target: nat)
    requires |Scan(rules, p, work, date, shift, target).placed| == target
    ensures var r := Scan(rules, p, work, date, shift, target);
            Scan(rules, p, work + rest, date, shift, target) == ScanResult(r.plan, r.placed, r.kept + rest)
    decreases |rest|
  {
    var r := Scan(rules, p, work, date, shift, target);
    if rest == [] {
      assert work + rest == work && r.kept + rest == r.kept;
    } else {
      var init, x := rest[..|rest| - 1], rest[|rest| - 1];
      ScanFull(rules, p, work, init, date, shift, target);
      assert (work + rest)[..|work + rest| - 1] == work + init && (work + rest)[|work + rest| - 1] == x;
      assert r.kept + rest == (r.kept + init) + [x];
    }
  }

  /** Scanning a prefix of the list places no more staff than scanning all of it. */
  lemma {:induction false} ScanPrefixPlaced(rules: seq<Rule>, p: Plan, work: seq<Uuid>, date: Date, shift: Shift, target: nat, j: nat)
    requires j <= |work|
    ensures |Scan(rules, p, work[..j], date, shift, target).placed| <= |Scan(rules, p, work, date, shift, target).placed|
    decreases |work|
  {
    if j < |work| {
      var init := work[..|work| - 1];
      ScanPrefixPlaced(rules, p, init, date, shift, target, j);
      assert init[..j] == work[..j];
    } else {
      assert work[..j] == work;
    }
  }

  /**
   * While the scan stays below its target, it reaches every entry, and the
   * entry at `j` is placed exactly when every rule admits it against the
   * plan the entries before it left; otherwise it is kept and nothing changes.
   */
  lemma ScanTurn(rules: seq<Rule>, p: Plan, work: seq<Uuid>, date: Date, shift: Shift, target: nat, j: nat)
    requires j < |work| && |Scan(rules, p, work, date, shift, target).placed| < target
    ensures var before := Scan(rules, p, work[..j], date, shift, target);
            var after := Scan(rules, p, work[..j + 1], date, shift, target);
            if AdmitsAll(rules, AssignmentContext(before.plan, work[j], date, shift))
            then after == ScanResult(Assign(before.plan, work[j], date, shift), before.placed + [work[j]], before.kept)
            else after == ScanResult(before.plan, before.placed, before.kept + [work[j]])
  {
    SliceStep(work, j);
    ScanPrefixPlaced(rules, p, work, date, shift, target, j);
    ScanSnocBelow(rules, p, work[..j], work[j], date, shift, target);
  }

  /** One entry more after a scan that is still below its target. */
  lemma ScanSnocBelow(rules: seq<Rule>, p: Plan, work: seq<Uuid>, x: Uuid, date: Date, shift: Shift, target: nat)
    requires |Scan(rules, p, work, date, shift, target).placed| < target
    ensures var before := Scan(rules, p, work, date, shift, target);
            var after := Scan(rules, p, work + [x], date, shift, target);
            if AdmitsAll(rules, AssignmentContext(before.plan, x, date, shift))
            then after == ScanResult(Assign(before.plan, x, date, shift), before.placed + [x], before.kept)
            else after == ScanResult(before.plan, before.placed, before.kept + [x])
  {
    assert (work + [x])[..|work|] == work;
  }

  /** A scan with a target that places nobody found every entry refused against the unchanged plan. */
  lemma {:induction false} ScanNothingPlaced(rules: seq<Rule>, p: Plan, work: seq<Uuid>, date: Date, shift: Shift, target: nat)
    requires target > 0 && Scan(rules, p, work, date, shift, target).placed == []
    ensures forall k :: 0 <= k < |work| ==> !AdmitsAll(rules, AssignmentContext(p, work[k], date, shift))
    ensures Scan(rules, p, work, date, shift, target) == ScanResult(p, [], work)
    decreases |work|
  {
    if work != [] {
      LastSplit(work);
      var init, x := work[..|work| - 1], work[|work| - 1];
      var before := Scan(rules, p, init, date, shift, target);
      NothingBefore(rules, before, x, date, shift, target);
      ScanNothingPlaced(rules, p, init, date, shift, target);
      forall k | 0 <= k < |work| ensures !AdmitsAll(rules, AssignmentContext(p, work[k], date, shift)) {
        if k < |init| {
          assert work[k] == init[k];
        }
      }
    }
  }

  /** A step that places nobody had placed nobody before, and refused its entry. */
  lemma NothingBefore(rules: seq<Rule>, before: ScanResult, x: Uuid, date: Date, shift: Shift, target: nat)
    requires target > 0 && ScanNext(rules, before, x, date, shift, target).placed == []
    ensures before.placed == [] && !AdmitsAll(rules, AssignmentContext(before.plan, x, date, shift))
    ensures ScanNext(rules, before, x, date, shift, target) == ScanResult(before.plan, [], before.kept + [x])
  {
  }

  /** With no rules to refuse anybody, a scan places the first `target` entries and keeps the rest. */
  lemma {:induction false} ScanWithoutRules(p: Plan, work: seq<Uuid>, date: Date, shift: Shift, target: nat)
    ensures var n := if |work| < target then |work| else target;
            var r := Scan([], p, work, date, shift, target);
            r.placed == work[..n] && r.kept == work[n..]
    decreases |work|
  {
    if work != [] {
      var init := work[..|work| - 1];
      ScanWithoutRules(p, init, date, shift, target);
      var m := if |init| < target then |init| else target;
      SnocSlices(work, m);
      assert AdmitsAll([], AssignmentContext(Scan([], p, init, date, shift, target).plan, work[|work| - 1], date, shift));
    }
  }

  /**
   * `assign_shift_type`: walks the open staff with an index, and gives
   * `shift` to each one the rules admit, until `targetCount` are placed.
   * A placed entry is removed from the list, so the index stays put.
   */
  method AssignShiftType(rules: seq<Rule>, assignments: Plan, unassigned: seq<Uuid>, date: Date, shift: Shift, targetCount: nat)
    returns (newAssignments: Plan, remaining: seq<Uuid>)
    ensures newAssignments == Scan(rules, assignments, unassigned, date, shift, targetCount).plan
    ensures remaining == Scan(rules, assignments, unassigned, date, shift, targetCount).kept
  {
    newAssignments, remaining := assignments, unassigned;
    var assignedCount := 0;
    var i := 0;
    // `done` are the entries decided so far, `rest` the others, and `r` is where the scan of `done` ends
    ghost var done, rest := [], unassigned;
    ghost var r := ScanResult(assignments, [], []);
    while i < |remaining| && assignedCount < targetCount
      invariant unassigned == done + rest && r == Scan(rules, assignments, done, date, shift, targetCount)
      invariant newAssignments == r.plan && remaining == r.kept + rest
      invariant i == |r.kept| && assignedCount == |r.placed|
      decreases |remaining| - i
    {
      var staffId := remaining[i];
      assert staffId == rest[0];
      var verdict := ValidateAssignment(rules, AssignmentContext(newAssignments, staffId, date, shift));
      if verdict.Pass? {
        newAssignments := Assign(newAssignments, staffId, date, shift);
        remaining := remaining[..i] + remaining[i + 1..];
        RemoveAfter(r.kept, rest);
        assignedCount := assignedCount + 1;
      } else {
        KeepAfter(r.kept, rest);
        i := i + 1;
      }
      ScanSnoc(rules, assignments, done, staffId, date, shift, targetCount);
      KeepAfter(done, rest);
      r := ScanNext(rules, r, staffId, date, shift, targetCount);
      done, rest := done + [staffId], rest[1..];
    }
    ScanEnd(rules, assignments, done, rest, date, shift, targetCount);
  }

  /** The scan of one entry more is one more step of the scan. */
  lemma ScanSnoc(rules: seq<Rule>, p: Plan, work: seq<Uuid>, x: Uuid, date: Date, shift: Shift, target: nat)
    ensures Scan(rules, p, work + [x], date, shift, target) == ScanNext(rules, Scan(rules, p, work, date, shift, target), x, date, shift, target)
  {
    assert (work + [x])[..|work|] == work;
  }

  /** A scan that stopped with all entries decided or its target reached ends as the scan of the whole list. */
  lemma ScanEnd(rules: seq<Rule>, p: Plan, done: seq<Uuid>, rest: seq<Uuid>, date: Date, shift: Shift, target: nat)
    requires rest == [] || |Scan(rules, p, done, date, shift, target).placed| == target
    ensures var r := Scan(rules, p, done, date, shift, target);
            Scan(rules, p, done + rest, date, shift, target) == ScanResult(r.plan, r.placed, r.kept + rest)
  {
    if rest != [] {
      ScanFull(rules, p, done, rest, date, shift, target);
    } else {
      assert done + rest == done;
      assert Scan(rules, p, done, date, shift, target).kept + rest == Scan(rules, p, done, date, shift, target).kept;
    }
  }

  /** Placing one more admitted staff member extends the chain of admissions. */
  lemma PlacedByRulesExtend(rules: seq<Rule>, p: Plan, placed: seq<Uuid>, date: Date, shift: Shift, staff: Uuid)
    requires PlacedByRules(rules, p, placed, date, shift)
    requires AdmitsAll(rules, AssignmentContext(AssignAll(p, placed, date, shift), staff, date, shift))
    ensures PlacedByRules(rules, p, placed + [staff], date, shift)
    ensures AssignAll(p, placed + [staff], date, shift) == Assign(AssignAll(p, placed, date, shift), staff, date, shift)
  {
    AssignAllSnoc(p, placed, staff, date, shift);
    var more := placed + [staff];
    assert more[..|more| - 1] == placed && more[|more| - 1] == staff;
  }

  /** The shifts `try_assign` tries after the preferred one. */
  function Alternatives(preferred: Shift): seq<Shift>
  {
    if preferred == DayOff then [Morning, Evening] else [DayOff]
  }

  /** The first of `options` every rule admits, or `fallback` when none is. */
  ghost function FirstAdmitted(rules: seq<Rule>, p: Plan, staff: Uuid, date: Date, options: seq<Shift>, fallback: Shift): Shift
  {
    if options == [] then fallback
    else if AdmitsAll(rules, AssignmentContext(p, staff, date, options[0])) then options[0]
    else FirstAdmitted(rules, p, staff, date, options[1..], fallback)
  }

  /** The shift `try_assign` settles on: the preferred one, then its alternatives, then the preferred one regardless. */
  ghost function TryAssignChoice(rules: seq<Rule>, p: Plan, staff: Uuid, date: Date, preferred: Shift): Shift
  {
    FirstAdmitted(rules, p, staff, date, [preferred] + Alternatives(preferred), preferred)
  }

  /** The fallback order for a preferred day off: day off, morning, evening, and a day off when nothing passes. */
  lemma DayOffFallbackOrder(rules: seq<Rule>, p: Plan, staff: Uuid, date: Date)
    ensures TryAssignChoice(rules, p, staff, date, DayOff) ==
      if AdmitsAll(rules, AssignmentContext(p, staff, date, DayOff)) then DayOff
      else if AdmitsAll(rules, AssignmentContext(p, staff, date, Morning)) then Morning
      else if AdmitsAll(rules, AssignmentContext(p, staff, date, Evening)) then Evening
      else DayOff
  {
    var opts := [DayOff] + Alternatives(DayOff);
    assert opts == [DayOff, Morning, Evening];
    assert opts[1..] == [Morning, Evening] && opts[1..][1..] == [Evening] && opts[1..][1..][1..] == [];
    var f3 := FirstAdmitted(rules, p, staff, date, [Evening], DayOff);
    assert f3 == if AdmitsAll(rules, AssignmentContext(p, staff, date, Evening)) then Evening
                 else FirstAdmitted(rules, p, staff, date, [], DayOff);
    var f2 := FirstAdmitted(rules, p, staff, date, [Morning, Evening], DayOff);
    assert f2 == if AdmitsAll(rules, AssignmentContext(p, staff, date, Morning)) then Morning else f3;
  }

  /** The chosen shift is admitted by every rule, unless no option was, and then it is the preferred one. */
  lemma {:induction false} ChoiceAdmittedUnlessNoneIs(rules: seq<Rule>, p: Plan, staff: Uuid, date: Date, options: seq<Shift>, fallback: Shift)
    ensures var c := FirstAdmitted(rules, p, staff, date, options, fallback);
            AdmitsAll(rules, AssignmentContext(p, staff, date, c)) ||
            (c == fallback && forall k :: 0 <= k < |options| ==> !AdmitsAll(rules, AssignmentContext(p, staff, date, options[k])))
  {
    if options != [] && !AdmitsAll(rules, AssignmentContext(p, staff, date, options[0])) {
      ChoiceAdmittedUnlessNoneIs(rules, p, staff, date, options[1..], fallback);
      var c := FirstAdmitted(rules, p, staff, date, options, fallback);
      if !AdmitsAll(rules, AssignmentContext(p, staff, date, c)) {
        forall k | 0 <= k < |options|
          ensures !AdmitsAll(rules, AssignmentContext(p, staff, date, options[k]))
        {
          if k > 0 {
            assert options[k] == options[1..][k - 1];
          }
        }
      }
    }
  }

  /** Gives `staffId` a shift on `date`: the preferred one if the rules allow, else an alternative, else the preferred one anyway. */
  method TryAssign(rules: seq<Rule>, assignments: Plan, staffId: Uuid, date: Date, preferred: Shift) returns (newAssignments: Plan)
    ensures newAssignments == Assign(assignments, staffId, date, TryAssignChoice(rules, assignments, staffId, date, preferred))
  {
    var verdict := ValidateAssignment(rules, AssignmentContext(assignments, staffId, date, preferred));
    if verdict.Pass? {
      return Assign(assignments, staffId, date, preferred);
    }
    var alternatives := Alternatives(preferred);
    ghost var options := [preferred] + alternatives;
    assert options[1..] == alternatives[0..];
    for k := 0 to |alternatives|
      invariant TryAssignChoice(rules, assignments, staffId, date, preferred)
             == FirstAdmitted(rules, assignments, staffId, date, alternatives[k..], preferred)
    {
      var alt := alternatives[k];
      verdict := ValidateAssignment(rules, AssignmentContext(assignments, staffId, date, alt));
      if verdict.Pass? {
        return Assign(assignments, staffId, date, alt);
      }
      assert alternatives[k..][1..] == alternatives[k + 1..];
    }
    return Assign(assignments, staffId, date, preferred);
  }

  /**
   * `q` is `p` with a shift on `date` for the listed staff: nothing recorded
   * before changes, each listed staff member has a shift on `date`, and only
   * the listed ones gain one.
   */
  ghost predicate FillsDay(p: Plan, q: Plan, staffIds: seq<Uuid>, date: Date)
  {
    (forall s, d :: (d != date || ShiftOf(p, s, d).Some?) ==> ShiftOf(q, s, d) == ShiftOf(p, s, d)) &&
    (forall s :: ShiftOf(q, s, date).Some? <==> ShiftOf(p, s, date).Some? || s in staffIds) &&
    q.Keys == p.Keys + Members(staffIds)
  }

  /** Part of the way to `FillsDay`: only open slots of listed staff on `date` were filled. */
  ghost predicate OnlyFillsOpen(p: Plan, q: Plan, staffIds: seq<Uuid>, date: Date)
  {
    (forall s, d :: (d != date || ShiftOf(p, s, d).Some?) ==> ShiftOf(q, s, d) == ShiftOf(p, s, d)) &&
    (forall s :: ShiftOf(q, s, date).Some? ==> ShiftOf(p, s, date).Some? || s in staffIds) &&
    p.Keys <= q.Keys <= p.Keys + Members(staffIds)
  }

  /** Giving `x` to staff members with an open slot on `date` only fills open slots. */
  lemma {:induction false} AssignAllFillsOpen(p: Plan, q: Plan, staffIds: seq<Uuid>, date: Date, placed: seq<Uuid>, x: Shift)
    requires OnlyFillsOpen(p, q, staffIds, date)
    requires forall s :: s in placed ==> s in staffIds && ShiftOf(p, s, date).None?
    ensures OnlyFillsOpen(p, AssignAll(q, placed, date, x), staffIds, date)
  {
  }

  /**
   * The last step of a day: each staff member still left over, in list
   * order, gets the shift `try_assign` settles on when a day off is
   * preferred, against the plan as it then stands.
   */
  ghost function Leftovers(rules: seq<Rule>, p: Plan, leftovers: seq<Uuid>, date: Date): Plan
    decreases |leftovers|
  {
    if leftovers == [] then p
    else
      var q := Leftovers(rules, p, leftovers[..|leftovers| - 1], date);
      var s := leftovers[|leftovers| - 1];
      Assign(q, s, date, TryAssignChoice(rules, q, s, date, DayOff))
  }

  /** The left-over pass gives each left-over staff member a shift, keeps every shift already set, and fills only open slots. */
  lemma {:induction false} LeftoversFill(rules: seq<Rule>, base: Plan, q: Plan, staffIds: seq<Uuid>, date: Date, leftovers: seq<Uuid>)
    requires OnlyFillsOpen(base, q, staffIds, date)
    requires forall s :: s in leftovers ==> s in staffIds && ShiftOf(base, s, date).None?
    ensures var r := Leftovers(rules, q, leftovers, date);
            OnlyFillsOpen(base, r, staffIds, date) &&
            (forall s :: s in leftovers ==> ShiftOf(r, s, date).Some?) &&
            (forall s :: ShiftOf(q, s, date).Some? ==> ShiftOf(r, s, date).Some?)
    decreases |leftovers|
  {
    if leftovers != [] {
      LastSplit(leftovers);
      LeftoversFill(rules, base, q, staffIds, date, leftovers[..|leftovers| - 1]);
    }
  }

  /**
   * The plan after `assign_shifts_for_day` on `date`: of the `n` listed staff
   * with no shift on `date`, a scan places up to `n / 3` on mornings, a scan
   * of the rest up to `(n - n / 3) / 2` on evenings, and the left-over pass
   * settles everybody still in the list.
   */
  ghost function DayResult(rules: seq<Rule>, p: Plan, staffIds: seq<Uuid>, date: Date): Plan
  {
    var evenings := DayScans(rules, p, staffIds, date);
    Leftovers(rules, evenings.plan, evenings.kept, date)
  }

  /** Where the evening scan of a day ends, after the morning scan of the open staff. */
  ghost function DayScans(rules: seq<Rule>, p: Plan, staffIds: seq<Uuid>, date: Date): ScanResult
  {
    var open := Unassigned(p, staffIds, date);
    var mornings := Scan(rules, p, open, date, Morning, |open| / 3);
    Scan(rules, mornings.plan, mornings.kept, date, Evening, (|open| - |open| / 3) / 2)
  }

  /** A day gives every listed staff member a shift on `date` and leaves every recorded shift alone. */
  lemma DayResultFillsDay(rules: seq<Rule>, p: Plan, staffIds: seq<Uuid>, date: Date)
    ensures FillsDay(p, DayResult(rules, p, staffIds, date), staffIds, date)
  {
    var open := Unassigned(p, staffIds, date);
    var mornings := Scan(rules, p, open, date, Morning, |open| / 3);
    var evenings := Scan(rules, mornings.plan, mornings.kept, date, Evening, (|open| - |open| / 3) / 2);
    assert DayScans(rules, p, staffIds, date) == evenings;
    ScanSound(rules, p, open, date, Morning, |open| / 3);
    ScanMembers(rules, p, open, date, Morning, |open| / 3);
    ScanSound(rules, mornings.plan, mornings.kept, date, Evening, (|open| - |open| / 3) / 2);
    ScanMembers(rules, mornings.plan, mornings.kept, date, Evening, (|open| - |open| / 3) / 2);
    StagesFillDay(rules, p, staffIds, date, open, mornings, evenings);
  }

  /** The two scans and the left-over pass over the open staff fill the day. */
  lemma StagesFillDay(rules: seq<Rule>, p: Plan, staffIds: seq<Uuid>, date: Date, open: seq<Uuid>, mornings: ScanResult, evenings: ScanResult)
    requires open == Unassigned(p, staffIds, date)
    requires mornings.plan == AssignAll(p, mornings.placed, date, Morning)
    requires forall s :: s in open <==> s in mornings.placed || s in mornings.kept
    requires evenings.plan == AssignAll(mornings.plan, evenings.placed, date, Evening)
    requires forall s :: s in mornings.kept <==> s in evenings.placed || s in evenings.kept
    ensures FillsDay(p, Leftovers(rules, evenings.plan, evenings.kept, date), staffIds, date)
  {
    AssignAllFillsOpen(p, p, staffIds, date, mornings.placed, Morning);
    AssignAllFillsOpen(p, mornings.plan, staffIds, date, evenings.placed, Evening);
    LeftoversFill(rules, p, evenings.plan, staffIds, date, evenings.kept);
    var q := Leftovers(rules, evenings.plan, evenings.kept, date);
    forall s | s in open ensures ShiftOf(q, s, date).Some? {
      if s !in evenings.kept {
        assert ShiftOf(evenings.plan, s, date).Some?;
      }
    }
    FillEnd(p, q, staffIds, date, open);
  }

  /** Once every open staff member has a shift, the day is filled. */
  lemma FillEnd(assignments: Plan, q: Plan, staffIds: seq<Uuid>, date: Date, open: seq<Uuid>)
    requires open == Unassigned(assignments, staffIds, date)
    requires OnlyFillsOpen(assignments, q, staffIds, date)
    requires forall s :: s in open ==> ShiftOf(q, s, date).Some?
    ensures FillsDay(assignments, q, staffIds, date)
  {
    forall s | s in staffIds ensures s in q {
      if ShiftOf(assignments, s, date).None? {
        assert s in open;
      }
    }
  }

  /** `try_assign` with a day off preferred, for each left-over staff member in order. */
  method AssignLeftovers(rules: seq<Rule>, assignments: Plan, leftovers: seq<Uuid>, date: Date) returns (q: Plan)
    ensures q == Leftovers(rules, assignments, leftovers, date)
  {
    q := assignments;
    for k := 0 to |leftovers|
      invariant q == Leftovers(rules, assignments, leftovers[..k], date)
    {
      assert leftovers[..k + 1][..k] == leftovers[..k];
      q := TryAssign(rules, q, leftovers[k], date, DayOff);
    }
    assert leftovers[..|leftovers|] == leftovers;
  }

  /** `assign_shifts_for_day`: the morning scan, the evening scan, and the left-over pass. */
  method AssignShiftsForDay(rules: seq<Rule>, assignments: Plan, staffIds: seq<Uuid>, date: Date) returns (newAssignments: Plan)
    ensures newAssignments == DayResult(rules, assignments, staffIds, date)
    ensures FillsDay(assignments, newAssignments, staffIds, date)
  {
    var unassigned := Unassigned(assignments, staffIds, date);
    var targetMorning := |unassigned| / 3;
    var targetEvening := (|unassigned| - targetMorning) / 2;
    var afterMornings, afterEvenings, leftMornings, leftovers;
    afterMornings, leftMornings := AssignShiftType(rules, assignments, unassigned, date, Morning, targetMorning);
    afterEvenings, leftovers := AssignShiftType(rules, afterMornings, leftMornings, date, Evening, targetEvening);
    assert DayScans(rules, assignments, staffIds, date) == ScanResult(afterEvenings, Scan(rules, afterMornings, leftMornings, date, Evening, targetEvening).placed, leftovers);
    newAssignments := AssignLeftovers(rules, afterEvenings, leftovers, date);
    DayResultFillsDay(rules, assignments, staffIds, date);
  }

  /** When nobody listed has a shift on `date` yet, everybody is open, in list order. */
  lemma {:induction false} NobodyAssignedYet(p: Plan, staffIds: seq<Uuid>, date: Date)
    requires forall s :: s in staffIds ==> ShiftOf(p, s, date).None?
    ensures Unassigned(p, staffIds, date) == staffIds
  {
    if staffIds != [] {
      NobodyAssignedYet(p, staffIds[1..], date);
      assert [staffIds[0]] + staffIds[1..] == staffIds;
    }
  }

  /**
   * Three open staff members and no rules: a third of three go to the
   * morning, half of the other two to the evening, and the last one gets
   * the preferred day off.
   */
  lemma ThreeStaffWithoutRules(rules: seq<Rule>, p: Plan, staffIds: seq<Uuid>, date: Date)
    requires rules == [] && |staffIds| == 3
    requires staffIds[0] != staffIds[1] && staffIds[0] != staffIds[2] && staffIds[1] != staffIds[2]
    requires forall s :: s in staffIds ==> ShiftOf(p, s, date).None?
    ensures var q := DayResult(rules, p, staffIds, date);
            ShiftOf(q, staffIds[0], date) == Some(Morning) && ShiftOf(q, staffIds[1], date) == Some(Evening) &&
            ShiftOf(q, staffIds[2], date) == Some(DayOff)
  {
    NobodyAssignedYet(p, staffIds, date);
    var mornings := Scan(rules, p, staffIds, date, Morning, |staffIds| / 3);
    var evenings := Scan(rules, mornings.plan, mornings.kept, date, Evening, (|staffIds| - |staffIds| / 3) / 2);
    assert DayScans(rules, p, staffIds, date) == evenings;
    ThreeStaffStages(rules, p, staffIds, mornings, evenings, Leftovers(rules, evenings.plan, evenings.kept, date), date);
  }

  /** The three stages of the three-staff day, from its two scans and the left-over pass. */
  lemma ThreeStaffStages(rules: seq<Rule>, p: Plan, open: seq<Uuid>, mornings: ScanResult, evenings: ScanResult, q: Plan, date: Date)
    requires rules == [] && |open| == 3
    requires open[0] != open[1] && open[0] != open[2] && open[1] != open[2]
    requires mornings == Scan(rules, p, open, date, Morning, |open| / 3)
    requires evenings == Scan(rules, mornings.plan, mornings.kept, date, Evening, (|open| - |open| / 3) / 2)
    requires q == Leftovers(rules, evenings.plan, evenings.kept, date)
    ensures ShiftOf(q, open[0], date) == Some(Morning) && ShiftOf(q, open[1], date) == Some(Evening) &&
            ShiftOf(q, open[2], date) == Some(DayOff)
  {
    ThreeStaffScans(rules, p, open, mornings, evenings, date);
    assert TryAssignChoice(rules, evenings.plan, open[2], date, DayOff) == DayOff;
    OneLeftover(rules, evenings.plan, evenings.kept, date);
    ThreeStages(p, mornings.plan, evenings.plan, q, open[0], open[1], open[2], date);
  }

  /** Without rules, the morning scan of three places the first and the evening scan the second, keeping the third. */
  lemma ThreeStaffScans(rules: seq<Rule>, p: Plan, open: seq<Uuid>, mornings: ScanResult, evenings: ScanResult, date: Date)
    requires rules == [] && |open| == 3
    requires mornings == Scan(rules, p, open, date, Morning, |open| / 3)
    requires evenings == Scan(rules, mornings.plan, mornings.kept, date, Evening, (|open| - |open| / 3) / 2)
    ensures mornings.plan == AssignAll(p, [open[0]], date, Morning)
    ensures evenings.plan == AssignAll(mornings.plan, [open[1]], date, Evening)
    ensures evenings.kept == [open[2]]
  {
    ThreeTails(open);
    FirstOnly(rules, p, open, date, Morning, |open| / 3, mornings);
    FirstOnly(rules, mornings.plan, mornings.kept, date, Evening, (|open| - |open| / 3) / 2, evenings);
  }

  /** With no rules and a target of one, a scan places the first entry of the list and keeps the rest. */
  lemma FirstOnly(rules: seq<Rule>, p: Plan, work: seq<Uuid>, date: Date, shift: Shift, target: nat, r: ScanResult)
    requires rules == [] && work != [] && target == 1
    requires r == Scan(rules, p, work, date, shift, target)
    ensures r.plan == AssignAll(p, [work[0]], date, shift) && r.kept == work[1..]
  {
    assert work[..1] == [work[0]];
    ScanWithoutRules(p, work, date, shift, target);
    ScanSound(rules, p, work, date, shift, target);
  }

  /** The left-over pass over a single staff member. */
  lemma OneLeftover(rules: seq<Rule>, p: Plan, leftovers: seq<Uuid>, date: Date)
    requires |leftovers| == 1
    ensures Leftovers(rules, p, leftovers, date) == Assign(p, leftovers[0], date, TryAssignChoice(rules, p, leftovers[0], date, DayOff))
  {
    assert leftovers[..0] == [];
  }

  /** The shifts three distinct staff members end with after one placement each. */
  lemma ThreeStages(p: Plan, p1: Plan, p2: Plan, q: Plan, a: Uuid, b: Uuid, c: Uuid, date: Date)
    requires a != b && a != c && b != c
    requires p1 == AssignAll(p, [a], date, Morning) && p2 == AssignAll(p1, [b], date, Evening)
    requires q == Assign(p2, c, date, DayOff)
    ensures ShiftOf(q, a, date) == Some(Morning) && ShiftOf(q, b, date) == Some(Evening) && ShiftOf(q, c, date) == Some(DayOff)
  {
  }

  // ------------------------------------------------------------------ output

  /** The output order: by date, then by staff id. */
  function AssignmentKeyLe(a: ShiftAssignment, b: ShiftAssignment): bool
  {
    a.date < b.date || (a.date == b.date && a.staffId <= b.staffId)
  }

  /** The output order is total, so the sort can use it. */
  lemma AssignmentKeyLeTotal()
    ensures TotalPreorder(AssignmentKeyLe)
  {
  }

  /** Some assignment of `rs` is for `staff` on `date`. */
  ghost predicate HasEntry(rs: seq<ShiftAssignment>, staff: Uuid, date: Date)
  {
    exists i :: 0 <= i < |rs| && rs[i].staffId == staff && rs[i].date == date
  }

  /** No two assignments are for the same staff member on the same date. */
  ghost predicate OnePerStaffAndDate(rs: seq<ShiftAssignment>)
  {
    forall i, j :: 0 <= i < j < |rs| ==> rs[i].staffId != rs[j].staffId || rs[i].date != rs[j].date
  }

  /**
   * A finished schedule: every listed staff member has exactly one shift on
   * each of the 28 dates, nothing else is listed, and the list is strictly
   * ordered by date and then staff id.
   */
  ghost predicate IsFullSchedule(rs: seq<ShiftAssignment>, staffIds: seq<Uuid>, startDate: Date, jobId: Uuid)
  {
    (forall i :: 0 <= i < |rs| ==>
       rs[i].scheduleJobId == jobId && rs[i].staffId in staffIds && startDate <= rs[i].date < startDate + PeriodDays) &&
    (forall s, d :: s in staffIds && startDate <= d < startDate + PeriodDays ==> HasEntry(rs, s, d)) &&
    (forall i, j :: 0 <= i < j < |rs| ==>
       rs[i].date < rs[j].date || (rs[i].date == rs[j].date && rs[i].staffId < rs[j].staffId))
  }

  /** A strictly ordered schedule has one entry per staff member and date. */
  lemma FullScheduleIsOnePerStaffAndDate(rs: seq<ShiftAssignment>, staffIds: seq<Uuid>, startDate: Date, jobId: Uuid)
    requires IsFullSchedule(rs, staffIds, startDate, jobId)
    ensures OnePerStaffAndDate(rs)
  {
  }

  /** After the days from `startDate` up to, not including, `endDate`: exactly the listed staff, each with exactly those dates. */
  ghost predicate CoversDays(p: Plan, staffIds: seq<Uuid>, startDate: Date, endDate: Date)
  {
    p.Keys == (if endDate <= startDate then {} else Members(staffIds)) &&
    forall s, d :: ShiftOf(p, s, d).Some? <==> s in staffIds && startDate <= d < endDate
  }

  /**
   * The plan after every day from `startDate` up to, not including,
   * `endDate`, built one day at a time from an empty one.
   */
  ghost function PeriodPlan(rules: seq<Rule>, staffIds: seq<Uuid>, startDate: Date, endDate: Date): Plan
    decreases endDate - startDate
  {
    if endDate <= startDate then map[]
    else DayResult(rules, PeriodPlan(rules, staffIds, startDate, endDate - 1), staffIds, endDate - 1)
  }

  /** The day loop of `generate_schedule`: each of the days of the period filled in turn, starting from an empty plan. */
  method FillPeriod(rules: seq<Rule>, staffIds: seq<Uuid>, startDate: Date) returns (assignments: Plan)
    requires staffIds != []
    ensures assignments == PeriodPlan(rules, staffIds, startDate, startDate + PeriodDays)
    ensures CoversDays(assignments, staffIds, startDate, startDate + PeriodDays)
  {
    assignments := map[];
    // the day offsets 0 .. 27, each standing for the date `startDate + offset`
    for currentDate := startDate to startDate + PeriodDays
      invariant assignments == PeriodPlan(rules, staffIds, startDate, currentDate)
      invariant CoversDays(assignments, staffIds, startDate, currentDate)
    {
      ghost var before := assignments;
      assignments := AssignShiftsForDay(rules, assignments, staffIds, currentDate);
      CoversNextDay(before, assignments, staffIds, startDate, currentDate);
    }
  }

  /**
   * `generate_schedule`: refuses a start that is not a Monday and an empty
   * staff list; otherwise builds the plan one day at a time and lists it
   * sorted by date and staff id.
   */
  method GenerateSchedule(rules: seq<Rule>, staffIds: seq<Uuid>, startDate: Date, jobId: Uuid)
    returns (r: Result<seq<ShiftAssignment>>)
    ensures !IsMonday(startDate) ==> r == Err(InvalidInput(NotMondayMessage))
    ensures IsMonday(startDate) && staffIds == [] ==> r == Err(InvalidInput(NoStaffMessage))
    ensures IsMonday(startDate) && staffIds != [] ==>
              r.Ok? && IsFullSchedule(r.value, staffIds, startDate, jobId) &&
              |r.value| == PeriodDays * |Members(staffIds)| &&
              ListsShiftsOf(r.value, PeriodPlan(rules, staffIds, startDate, startDate + PeriodDays), Members(staffIds), jobId)
  {
    if !IsMonday(startDate) {
      return Err(InvalidInput(NotMondayMessage));
    }
    if staffIds == [] {
      return Err(InvalidInput(NoStaffMessage));
    }
    var assignments := FillPeriod(rules, staffIds, startDate);
    CoveredRowsHaveWidth(assignments, staffIds, startDate, PeriodDays);
    var result := CollectAssignments(assignments, jobId, PeriodDays);
    var sorted := InsertionSort(result, AssignmentKeyLe);
    SortedIsFull(assignments, result, staffIds, startDate, jobId);
    return Ok(sorted);
  }

  /** A plan covering the first `days` days has exactly `days` dates per staff member. */
  lemma CoveredRowsHaveWidth(p: Plan, staffIds: seq<Uuid>, startDate: Date, days: nat)
    requires CoversDays(p, staffIds, startDate, startDate + days)
    ensures forall s :: s in p ==> |p[s]| == days
  {
    forall s | s in p ensures |p[s]| == days {
      assert p[s].Keys == DateRange(startDate, days) by {
        forall d ensures d in p[s] <==> startDate <= d < startDate + days {
          assert ShiftOf(p, s, d).Some? <==> d in p[s];
        }
      }
      DateRangeSize(startDate, days);
    }
  }

  /** Filling the day at `date` in a plan that covers the days before it yields one that covers that day too. */
  lemma CoversNextDay(p: Plan, q: Plan, staffIds: seq<Uuid>, startDate: Date, date: Date)
    requires staffIds != [] && startDate <= date
    requires CoversDays(p, staffIds, startDate, date)
    requires FillsDay(p, q, staffIds, date)
    ensures CoversDays(q, staffIds, startDate, date + 1)
  {
    forall s, d ensures ShiftOf(q, s, d).Some? <==> s in staffIds && startDate <= d < date + 1 {
      if d != date {
        assert ShiftOf(q, s, d) == ShiftOf(p, s, d);
      }
    }
  }

  /** Sorting the entries collected from the finished plan by date and staff id gives a full schedule. */
  lemma SortedIsFull(plan: Plan, result: seq<ShiftAssignment>, staffIds: seq<Uuid>, startDate: Date, jobId: Uuid)
    requires staffIds != [] && CoversDays(plan, staffIds, startDate, startDate + PeriodDays)
    requires ListsShiftsOf(result, plan, plan.Keys, jobId)
    requires forall s, d :: ShiftOf(plan, s, d).Some? ==> HasEntry(result, s, d)
    requires NoTies(result, AssignmentKeyLe)
    ensures var sorted := InsertionSort(result, AssignmentKeyLe);
            IsFullSchedule(sorted, staffIds, startDate, jobId) && ListsShiftsOf(sorted, plan, plan.Keys, jobId)
  {
    var sorted := InsertionSort(result, AssignmentKeyLe);
    SortedKeepsEntries(result, sorted);
    SortedIsStrict(result);
    forall i | 0 <= i < |sorted|
      ensures sorted[i].scheduleJobId == jobId && sorted[i].staffId in plan.Keys &&
              ShiftOf(plan, sorted[i].staffId, sorted[i].date) == Some(sorted[i].shift)
    {
      var k :| 0 <= k < |result| && result[k] == sorted[i];
    }
    forall s, d | s in staffIds && startDate <= d < startDate + PeriodDays
      ensures HasEntry(sorted, s, d)
    {
      assert ShiftOf(plan, s, d).Some?;
    }
  }

  /** A permutation has the same entries. */
  lemma SortedKeepsEntries(result: seq<ShiftAssignment>, sorted: seq<ShiftAssignment>)
    requires multiset(sorted) == multiset(result)
    ensures forall s, d :: HasEntry(result, s, d) ==> HasEntry(sorted, s, d)
    ensures forall i :: 0 <= i < |sorted| ==> sorted[i] in result
  {
    forall s, d | HasEntry(result, s, d)
      ensures HasEntry(sorted, s, d)
    {
      var i :| 0 <= i < |result| && result[i].staffId == s && result[i].date == d;
      assert result[i] in multiset(sorted);
      var k :| 0 <= k < |sorted| && sorted[k] == result[i];
    }
    forall i | 0 <= i < |sorted|
      ensures sorted[i] in result
    {
      assert sorted[i] in multiset(result);
    }
  }

  /** Sorting entries without ties by date and staff id orders them strictly. */
  lemma SortedIsStrict(result: seq<ShiftAssignment>)
    requires NoTies(result, AssignmentKeyLe)
    ensures var sorted := InsertionSort(result, AssignmentKeyLe);
            forall i, j :: 0 <= i < j < |sorted| ==>
              sorted[i].date < sorted[j].date || (sorted[i].date == sorted[j].date && sorted[i].staffId < sorted[j].staffId)
  {
    var sorted := InsertionSort(result, AssignmentKeyLe);
    AssignmentKeyLeTotal();
    SortSorted(result, AssignmentKeyLe);
    SortNoTies(result, AssignmentKeyLe);
    forall i, j | 0 <= i < j < |sorted|
      ensures sorted[i].date < sorted[j].date || (sorted[i].date == sorted[j].date && sorted[i].staffId < sorted[j].staffId)
    {
      assert AssignmentKeyLe(sorted[i], sorted[j]);
      assert !(AssignmentKeyLe(sorted[i], sorted[j]) && AssignmentKeyLe(sorted[j], sorted[i]));
    }
  }

  /** Every entry of `rs` is for one of `staff` and states that member's shift in `p`. */
  ghost predicate ListsShiftsOf(rs: seq<ShiftAssignment>, p: Plan, staff: set<Uuid>, jobId: Uuid)
  {
    forall i :: 0 <= i < |rs| ==>
      rs[i].scheduleJobId == jobId && rs[i].staffId in staff && ShiftOf(p, rs[i].staffId, rs[i].date) == Some(rs[i].shift)
  }

  /**
   * The `(staff, date, shift)` entries of the finished plan, in the map's own
   * order: every recorded shift exactly once. `width` is the number of dates
   * each staff member has.
   */
  method CollectAssignments(assignments: Plan, jobId: Uuid, ghost width: nat) returns (result: seq<ShiftAssignment>)
    requires forall s :: s in assignments ==> |assignments[s]| == width
    ensures ListsShiftsOf(result, assignments, assignments.Keys, jobId)
    ensures forall s, d :: ShiftOf(assignments, s, d).Some? ==> HasEntry(result, s, d)
    ensures NoTies(result, AssignmentKeyLe)
    ensures |result| == width * |assignments.Keys|
  {
    result := [];
    var staffLeft := assignments.Keys;
    ghost var staffDone: set<Uuid> := {};
    CollectStart(assignments, jobId, width);
    while staffLeft != {}
      invariant CollectingRows(result, assignments, staffLeft, staffDone, jobId, width)
      decreases staffLeft
    {
      var staffId :| staffId in staffLeft;
      var row := assignments[staffId];
      var entries := CollectStaffEntries(jobId, staffId, row);
      CollectStep(assignments, jobId, width, result, staffLeft, staffDone, staffId, row, entries);
      result := result + entries;
      staffLeft := staffLeft - {staffId};
      staffDone := staffDone + {staffId};
    }
    CollectDone(assignments, jobId, width, result, staffDone);
  }

  /** Before any row is listed, nothing is collected. */
  lemma CollectStart(p: Plan, jobId: Uuid, width: nat)
    ensures CollectingRows([], p, p.Keys, {}, jobId, width)
  {
    assert p.Keys - p.Keys == {};
  }

  /** Once every row is listed, the listing holds the whole plan. */
  lemma CollectDone(p: Plan, jobId: Uuid, width: nat, rs: seq<ShiftAssignment>, done: set<Uuid>)
    requires CollectingRows(rs, p, {}, done, jobId, width)
    ensures ListsShiftsOf(rs, p, p.Keys, jobId)
    ensures forall s, d :: ShiftOf(p, s, d).Some? ==> HasEntry(rs, s, d)
    ensures NoTies(rs, AssignmentKeyLe)
    ensures |rs| == width * |p.Keys|
  {
    assert done == p.Keys;
    TimesIsProduct(width, |done|);
    forall s, d | ShiftOf(p, s, d).Some? ensures HasEntry(rs, s, d) {
      assert s in done;
    }
  }

  /** The rows of `done` are collected and those of `left` are still to come. */
  ghost predicate CollectingRows(rs: seq<ShiftAssignment>, p: Plan, left: set<Uuid>, done: set<Uuid>, jobId: Uuid, width: nat)
  {
    left <= p.Keys && done == p.Keys - left &&
    Collected(rs, p, done, jobId) &&
    |rs| == Times(width, |done|)
  }

  /** The entries collected for the staff members `done`. */
  ghost predicate Collected(rs: seq<ShiftAssignment>, p: Plan, done: set<Uuid>, jobId: Uuid)
  {
    ListsShiftsOf(rs, p, done, jobId) &&
    (forall s, d :: s in done && ShiftOf(p, s, d).Some? ==> HasEntry(rs, s, d)) &&
    NoTies(rs, AssignmentKeyLe)
  }

  /** The entries of one staff member's row of the plan: one per date, in the row's own order. */
  method CollectStaffEntries(jobId: Uuid, staffId: Uuid, row: map<Date, Shift>) returns (entries: seq<ShiftAssignment>)
    ensures RowEntries(entries, jobId, staffId, row)
  {
    entries := [];
    var datesLeft := row.Keys;
    ghost var datesDone: set<Date> := {};
    while datesLeft != {}
      invariant CollectingRow(entries, jobId, staffId, row, datesLeft, datesDone)
      decreases datesLeft
    {
      SomeDateIn(datesLeft);
      var date :| date in datesLeft;
      var entry := ShiftAssignment(jobId, staffId, date, row[date]);
      RowStep(entries, jobId, staffId, row, datesLeft, datesDone, date);
      entries := entries + [entry];
      datesLeft := datesLeft - {date};
      datesDone := datesDone + {date};
    }
    assert datesDone == row.Keys;
  }

  /** The dates `done` of `row` are listed and those of `left` are still to come. */
  ghost predicate CollectingRow(entries: seq<ShiftAssignment>, jobId: Uuid, staffId: Uuid, row: map<Date, Shift>,
                                left: set<Date>, done: set<Date>)
  {
    left <= row.Keys && done == row.Keys - left &&
    (forall i :: 0 <= i < |entries| ==>
       entries[i].scheduleJobId == jobId && entries[i].staffId == staffId &&
       entries[i].date in done && entries[i].shift == row[entries[i].date]) &&
    (forall d :: d in done ==> HasEntry(entries, staffId, d)) &&
    (forall i, j :: 0 <= i < j < |entries| ==> entries[i].date != entries[j].date) &&
    |entries| == |done|
  }

  /** One more date of a row extends the row's listing. */
  lemma RowStep(entries: seq<ShiftAssignment>, jobId: Uuid, staffId: Uuid, row: map<Date, Shift>,
                left: set<Date>, done: set<Date>, date: Date)
    requires CollectingRow(entries, jobId, staffId, row, left, done) && date in left
    ensures CollectingRow(entries + [ShiftAssignment(jobId, staffId, date, row[date])], jobId, staffId, row,
                          left - {date}, done + {date})
  {
    var entry := ShiftAssignment(jobId, staffId, date, row[date]);
    var all := entries + [entry];
    PartitionStep(row.Keys, left, done, date);
    forall d | d in done ensures HasEntry(all, staffId, d) {
      HasEntryAppend(entries, [entry], staffId, d);
    }
    assert all[|entries|] == entry;
    forall i | 0 <= i < |entries| ensures all[i] == entries[i] {
    }
  }

  /** An entry of either part is an entry of the concatenation. */
  lemma HasEntryAppend(rs: seq<ShiftAssignment>, more: seq<ShiftAssignment>, staff: Uuid, date: Date)
    requires HasEntry(rs, staff, date)
    ensures HasEntry(rs + more, staff, date) && HasEntry(more + rs, staff, date)
  {
    var i :| 0 <= i < |rs| && rs[i].staffId == staff && rs[i].date == date;
    assert (rs + more)[i] == rs[i];
    assert (more + rs)[|more| + i] == rs[i];
  }

  /** `entries` lists the row of `staffId` in the plan: one entry per date, each with the row's shift. */
  ghost predicate RowEntries(entries: seq<ShiftAssignment>, jobId: Uuid, staffId: Uuid, row: map<Date, Shift>)
  {
    (forall i :: 0 <= i < |entries| ==>
       entries[i].scheduleJobId == jobId && entries[i].staffId == staffId &&
       entries[i].date in row && entries[i].shift == row[entries[i].date]) &&
    (forall d :: d in row ==> HasEntry(entries, staffId, d)) &&
    (forall i, j :: 0 <= i < j < |entries| ==> entries[i].date != entries[j].date) &&
    |entries| == |row|
  }

  /** Appending a new staff member's row keeps everything collected so far. */
  lemma CollectStep(p: Plan, jobId: Uuid, width: nat, rs: seq<ShiftAssignment>, left: set<Uuid>, done: set<Uuid>,
                    staffId: Uuid, row: map<Date, Shift>, entries: seq<ShiftAssignment>)
    requires forall s :: s in p ==> |p[s]| == width
    requires CollectingRows(rs, p, left, done, jobId, width) && staffId in left && row == p[staffId]
    requires RowEntries(entries, jobId, staffId, row)
    ensures CollectingRows(rs + entries, p, left - {staffId}, done + {staffId}, jobId, width)
  {
    PartitionStep(p.Keys, left, done, staffId);
    assert |rs + entries| == Times(width, |done + {staffId}|) by {
      assert |entries| == width;
    }
    AppendListsShifts(p, jobId, rs, done, staffId, row, entries);
    AppendCovers(p, jobId, rs, done, staffId, row, entries);
    AppendNoTies(p, jobId, rs, done, staffId, row, entries);
  }

  /** Appending a staff member's row keeps every entry listed from the plan. */
  lemma AppendListsShifts(p: Plan, jobId: Uuid, rs: seq<ShiftAssignment>, done: set<Uuid>,
                          staffId: Uuid, row: map<Date, Shift>, entries: seq<ShiftAssignment>)
    requires ListsShiftsOf(rs, p, done, jobId) && staffId in p && row == p[staffId]
    requires RowEntries(entries, jobId, staffId, row)
    ensures ListsShiftsOf(rs + entries, p, done + {staffId}, jobId)
  {
    var all := rs + entries;
    forall i | 0 <= i < |all|
      ensures all[i].scheduleJobId == jobId && all[i].staffId in done + {staffId} &&
              ShiftOf(p, all[i].staffId, all[i].date) == Some(all[i].shift)
    {
      if i >= |rs| {
        assert all[i] == entries[i - |rs|];
      } else {
        assert all[i] == rs[i];
      }
    }
  }

  /** Appending a staff member's row lists every slot of that row. */
  lemma AppendCovers(p: Plan, jobId: Uuid, rs: seq<ShiftAssignment>, done: set<Uuid>,
                     staffId: Uuid, row: map<Date, Shift>, entries: seq<ShiftAssignment>)
    requires forall s, d :: s in done && ShiftOf(p, s, d).Some? ==> HasEntry(rs, s, d)
    requires staffId in p && row == p[staffId]
    requires RowEntries(entries, jobId, staffId, row)
    ensures forall s, d :: s in done + {staffId} && ShiftOf(p, s, d).Some? ==> HasEntry(rs + entries, s, d)
  {
    forall s, d | s in done + {staffId} && ShiftOf(p, s, d).Some?
      ensures HasEntry(rs + entries, s, d)
    {
      if s == staffId {
        HasEntryAppend(entries, rs, s, d);
      } else {
        HasEntryAppend(rs, entries, s, d);
      }
    }
  }

  /** Appending a row of a staff member not yet listed adds no second entry for a staff member and date. */
  lemma AppendNoTies(p: Plan, jobId: Uuid, rs: seq<ShiftAssignment>, done: set<Uuid>,
                     staffId: Uuid, row: map<Date, Shift>, entries: seq<ShiftAssignment>)
    requires NoTies(rs, AssignmentKeyLe) && ListsShiftsOf(rs, p, done, jobId) && staffId !in done
    requires RowEntries(entries, jobId, staffId, row)
    ensures NoTies(rs + entries, AssignmentKeyLe)
  {
    var all := rs + entries;
    forall i, j | 0 <= i < j < |all|
      ensures !(AssignmentKeyLe(all[i], all[j]) && AssignmentKeyLe(all[j], all[i]))
    {
      if j < |rs| {
        assert all[i] == rs[i] && all[j] == rs[j];
      } else if i >= |rs| {
        assert all[i] == entries[i - |rs|] && all[j] == entries[j - |rs|];
      } else {
        assert all[i] == rs[i] && all[j] == entries[j - |rs|];
      }
    }
  }
}
