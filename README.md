# Shift scheduling: a Dafny model

This project models the core of a two-service shift-scheduling system.

**The scheduling service** builds 28-day rosters, Monday to Sunday weeks, from a Monday onwards.
- Each staff member of a group gets one shift per day: a morning, an evening or a day off.
- Four rules decide whether a proposed shift is legal against the shifts already chosen:
  - a weekly minimum of days off;
  - a weekly maximum of days off;
  - no morning straight after an evening;
  - a daily limit on the gap between morning and evening head counts.
- Two greedy generators fill the roster day by day:
  - the rule-driven `ScheduleGenerator`;
  - the older `GreedyScheduler` over a `ScheduleState` tracker. It also checks the weekly days-off limits after the fact.
- A schedule job moves from Pending to Processing, and then to Completed (assignments saved) or Failed (message recorded).
- Three HTTP handlers submit a job, report its status and serve a completed job's assignments.

**The data service** keeps staff, groups and memberships. The model covers:
- how the database store folds the member-resolution rows and counts the distinct members;
- how the group service resolves the Active members of a group tree, sorted by name;
- the in-memory staff, group and membership stores, including their pagination, partial updates and NotFound errors.

**Representation.**
- Dates are day numbers. Day 4, 1970-01-05, is a Monday, and `Weekday(d) = (d - 4) % 7`.
- Identifiers are naturals: opaque, but ordered, as `Uuid` is in Rust.
- Timestamps and fresh ids are parameters, one `now` per operation.
- A roster is a `map<Uuid, map<Date, Shift>>`, as in the source.
- Classes model:
  - the stores;
  - the `ScheduleState` tracker;
  - the job processors;
  - the job queue's sending half.

  Their methods update these maps and sequences in place.
- Hash-map and hash-set iteration, whose order Rust leaves unspecified, is `:|` choice over a shrinking set. The contracts therefore hold for every iteration order.
- The data-service fetches and the generator's resolver are inputs to the operations that use them.

**Modules.**
- `Types`: enums, errors, the calendar.
- `Text`: `Display` and `format!` texts.
- `Sorting`: ordering, sorting, repeat-freedom.
- `Plan`: the roster map and its counts.
- `Worklist`: slicing facts for a list scanned in place, with entries passed over or removed.
- `RuleContext`, `Rules` and one module per rule.
- `ScheduleGenerator`, `SchedulingState`, `GreedyScheduler`.
- `Entities`, `JobStores`, `JobProcessing`, `ScheduleHandlers`.
- `StaffDirectory`, `GroupRepository`, `GroupService`, `DataStores`.

## Model

| member | source | states |
|---|---|---|
| Types.Display | shared/src/error.rs:3-19 | the text of an error ends with its payload, after the variant's fixed prefix |
| Types.Debug | scheduling-service/src/infrastructure/job_processor.rs:66 | the `{:?}` text is the variant name, then `("`, the payload written as a Rust string literal, then `")`; it is at least four characters longer than name and payload together |
| Types.EscapeChar | scheduling-service/src/infrastructure/job_processor.rs:66 | a character is written as itself, or as an escape of two or more characters that starts with a backslash; a character written as itself is never a backslash |
| Types.EscapeCharRoundTrip | scheduling-service/src/infrastructure/job_processor.rs:66 | an escaped character followed by anything reads back as that character before however the rest reads back |
| Types.EscapeDebugRoundTrip | scheduling-service/src/infrastructure/job_processor.rs:66 | an escaped string reads back as the string |
| Types.DebugReadsBack | scheduling-service/src/infrastructure/job_processor.rs:66 | the quoted part of the `{:?}` text reads back as exactly the error's message |
| Types.Weekday | scheduling-service/src/domain/schedule_generator.rs:26 | the days since Monday lie in 0..6 |
| Types.WeekStart | scheduling-service/src/domain/rules/min_days_off_rule.rs:16-20 | the week start is a Monday, on or before the date, less than seven days earlier |
| Types.WeekStartUnique | scheduling-service/src/domain/rules/max_days_off_rule.rs:16-20 | every date of a Monday-to-Sunday week has that Monday as its week start, and its weekday is its offset from that Monday |
| Types.KnownMondays | scheduling-service/src/domain/services/scheduler.rs:199-239 | the test dates 2024-01-15 and 2026-02-09 are Mondays, and 2024-01-16 is not |
| Text.NatText | scheduling-service/src/domain/rules/min_days_off_rule.rs:70-73 | a number prints as a non-empty run of decimal digits |
| Text.UuidText | data-service/tests/common/mod.rs:248-250 | an id prints as 36 characters |
| Text.KnownDate | scheduling-service/src/domain/services/scheduler.rs:223 | day 19737 is printed as 2024-01-15 |
| Text.IdNotFound | scheduling-service/tests/common/mod.rs:72 | a `NotFound` whose message is the record's label, the 36-character id, and a fixed ten-character tail |
| Sorting.InsertionSort | data-service/src/infrastructure/group_service.rs:62 | the sorted list is a permutation of the input |
| Sorting.SortSorted | data-service/src/infrastructure/group_service.rs:62 | the output is ordered by any total preorder |
| Sorting.SortNoTies | scheduling-service/src/domain/schedule_generator.rs:63 | sorting keeps a list that has no two equally ranked entries without ties |
| Sorting.LexLeTotal | data-service/src/infrastructure/group_service.rs:62 | the string order is total |
| Sorting.LexLeTransitive | data-service/src/infrastructure/group_service.rs:62 | the string order is transitive |
| Sorting.LexLeAntisymmetric | data-service/src/infrastructure/group_service.rs:62 | two names ranked equal both ways are the same name |
| Sorting.DistinctSize | data-service/src/infrastructure/repositories/postgres_group_repository.rs:191-196 | a list without repeats has as many entries as distinct values |
| Plan.Assign | scheduling-service/src/domain/schedule_generator.rs:145 | the given slot holds the shift; no other staff member's or date's slot changes |
| Plan.AssignAll | scheduling-service/src/domain/schedule_generator.rs:134-151 | each listed staff member has the shift on the date; every other slot is unchanged |
| Plan.AssignAllSnoc | scheduling-service/src/domain/schedule_generator.rs:145 | assigning to a list extended by one entry is one more `Assign` |
| Plan.DaysOffBounded | scheduling-service/src/domain/rules/min_days_off_rule.rs:29-39 | at most `k` days off are counted in a window of `k` days |
| Plan.DaysOffLocal | scheduling-service/src/domain/rules/max_days_off_rule.rs:23-40 | the count depends only on the staff member's own shifts inside the window |
| Plan.DaysOffMonotone | scheduling-service/src/domain/rules/min_days_off_rule.rs:29-39 | more days off recorded means a count at least as large |
| Plan.DaysOffAfterAssign | scheduling-service/src/domain/rules/max_days_off_rule.rs:23-40 | recording a day off in an empty slot of the window adds exactly one |
| Plan.HeadcountsPartition | scheduling-service/src/domain/services/scheduling_rules.rs:145-158 | the three head counts of a date add up to the number of staff with a shift on it |
| Plan.HeadcountAfterAssign | scheduling-service/src/domain/rules/shift_balance_rule.rs:40-43 | a shift recorded in an empty slot adds one to its own head count and changes no other |
| Plan.SwapShifts | scheduling-service/src/domain/rules/shift_balance_rule.rs:48 | the mirrored roster has the same slots, with mornings and evenings exchanged |
| Plan.HeadcountOfSwapped | scheduling-service/src/domain/rules/shift_balance_rule.rs:45-48 | a head count of the mirrored roster is the mirrored head count of the original |
| RuleContext.WeekDaysOffLocal | scheduling-service/src/domain/rules/max_days_off_rule.rs:16-40 | the week's days off that both days-off rules weigh depend only on the staff member's own shifts in that week |
| Rules.Validate | scheduling-service/src/domain/rules/mod.rs:24-27 | a rule passes exactly when it admits the context; its refusals are `InvalidInput` |
| MinDaysOffRule.RemainingDaysAreLaterDaysOfWeek | scheduling-service/src/domain/rules/min_days_off_rule.rs:43-54 | the remaining count is 6 minus the weekday, so 0 on Sunday, and it covers exactly the later dates of the week |
| MinDaysOffRule.CountDaysOffInWeek | scheduling-service/src/domain/rules/min_days_off_rule.rs:23-40 | the loop counts the context staff member's days off over the seven days from the week start |
| MinDaysOffRule.DaysOffZeroWithoutRow | scheduling-service/src/domain/rules/min_days_off_rule.rs:24-27 | the count is 0 for a staff member without shifts |
| MinDaysOffRule.Validate | scheduling-service/src/domain/rules/min_days_off_rule.rs:58-77 | refuses exactly a work shift for which the days off so far plus the remaining days are below the minimum, with the source's message |
| MinDaysOffRule.DayOffNeverViolates | scheduling-service/src/domain/rules/min_days_off_rule.rs:60-62 | a day off is always accepted |
| MinDaysOffRule.MoreDaysOffHelp | scheduling-service/src/domain/rules/min_days_off_rule.rs:65-69 | recording more days off only lifts refusals and never causes one |
| MinDaysOffRule.SundayAfterSixWorkdaysRefused | scheduling-service/src/domain/rules/min_days_off_rule.rs:91-115 | with mornings from Monday to Saturday and a minimum of 2, a Sunday morning is refused |
| MinDaysOffRule.NoDaysOffInRow | scheduling-service/src/domain/rules/min_days_off_rule.rs:29-39 | a window without days off counts 0 |
| MinDaysOffRule.MondayOnEmptyScheduleAccepted | scheduling-service/src/domain/rules/min_days_off_rule.rs:118-134 | on an empty roster with a minimum of 2, a Monday morning is accepted |
| MaxDaysOffRule.Validate | scheduling-service/src/domain/rules/max_days_off_rule.rs:44-61 | refuses exactly a day off for which that week's days off plus one exceed the maximum, with the source's message |
| MaxDaysOffRule.WorkShiftNeverViolates | scheduling-service/src/domain/rules/max_days_off_rule.rs:46-48 | mornings and evenings are always accepted |
| MaxDaysOffRule.ZeroMaximumRefusesEveryDayOff | scheduling-service/src/domain/rules/max_days_off_rule.rs:53 | with a maximum of 0 every day off is refused |
| MaxDaysOffRule.MoreDaysOffHurt | scheduling-service/src/domain/rules/max_days_off_rule.rs:51-53 | recording more days off only causes refusals and never lifts one |
| MaxDaysOffRule.AcceptedDayOffStaysWithinMax | scheduling-service/src/domain/rules/max_days_off_rule.rs:50-59 | an accepted day off, once recorded in an empty slot, leaves the week within the maximum |
| MaxDaysOffRule.ThirdDayOffRefused | scheduling-service/src/domain/rules/max_days_off_rule.rs:71-96 | with days off on Monday and Tuesday and a maximum of 2, a Wednesday day off is refused |
| MaxDaysOffRule.SecondDayOffAccepted | scheduling-service/src/domain/rules/max_days_off_rule.rs:99-120 | with one day off and a maximum of 2, a Tuesday day off is accepted |
| MaxDaysOffRule.DaysOffBoundedBelow | scheduling-service/src/domain/rules/max_days_off_rule.rs:29-39 | a longer window counts at least as many days off |
| MaxDaysOffRule.OnlyMondayOff | scheduling-service/src/domain/rules/max_days_off_rule.rs:99-120 | a week whose only entry is a Monday day off counts one |
| NoMorningAfterEveningRule.PreviousShift | scheduling-service/src/domain/rules/no_morning_after_evening_rule.rs:13-20 | the lookup is the same staff member's slot on the day before |
| NoMorningAfterEveningRule.NextShift | scheduling-service/src/domain/rules/no_morning_after_evening_rule.rs:23-30 | the lookup is the same staff member's slot on the day after |
| NoMorningAfterEveningRule.Validate | scheduling-service/src/domain/rules/no_morning_after_evening_rule.rs:34-60 | refuses exactly a morning after the same staff member's evening, or an evening before their morning, with the matching message |
| NoMorningAfterEveningRule.ForbiddenFromBothSides | scheduling-service/src/domain/rules/no_morning_after_evening_rule.rs:36-58 | whichever half of an evening-then-morning pair is recorded first, the other half is refused |
| NoMorningAfterEveningRule.DayOffNeverViolates | scheduling-service/src/domain/rules/no_morning_after_evening_rule.rs:35-60 | a day off is always accepted |
| NoMorningAfterEveningRule.MorningAfterEveningRefused | scheduling-service/src/domain/rules/no_morning_after_evening_rule.rs:71-90 | an evening on Monday makes a Tuesday morning refused |
| NoMorningAfterEveningRule.MorningAfterMorningAccepted | scheduling-service/src/domain/rules/no_morning_after_evening_rule.rs:93-112 | a morning on Monday leaves a Tuesday morning accepted |
| ShiftBalanceRule.CountShiftsOnDate | scheduling-service/src/domain/rules/shift_balance_rule.rs:17-30 | all three keys are present, each holding that shift's head count on the date over every staff member |
| ShiftBalanceRule.Validate | scheduling-service/src/domain/rules/shift_balance_rule.rs:34-66 | refuses exactly a work shift after which the morning and evening counts (one added for the proposal) differ by more than the limit; the message carries those counts |
| ShiftBalanceRule.MirrorSymmetric | scheduling-service/src/domain/rules/shift_balance_rule.rs:48 | mirroring the roster and the proposed shift keeps the verdict |
| ShiftBalanceRule.AcceptedKeepsBalance | scheduling-service/src/domain/rules/shift_balance_rule.rs:40-50 | an accepted shift, once recorded in an empty slot, keeps the date's gap within the limit |
| ShiftBalanceRule.ThirdMorningRefused | scheduling-service/src/domain/rules/shift_balance_rule.rs:77-104 | with two mornings and a limit of 1, a third morning is refused |
| ShiftBalanceRule.EveningAfterBalancedPairAccepted | scheduling-service/src/domain/rules/shift_balance_rule.rs:107-134 | with one morning, one evening and a limit of 1, another evening is accepted |
| ScheduleGenerator.ValidateAssignment | scheduling-service/src/domain/schedule_generator.rs:69-74 | passes exactly when every rule admits the context; otherwise it returns the `InvalidInput` of the first refusing rule |
| ScheduleGenerator.Unassigned | scheduling-service/src/domain/schedule_generator.rs:83-92 | the worklist holds exactly the listed staff without a shift on the date |
| ScheduleGenerator.NobodyAssignedYet | scheduling-service/src/domain/schedule_generator.rs:83-92 | on a date no listed staff member has a shift on, the worklist is the whole staff list, in order |
| ScheduleGenerator.Scan | scheduling-service/src/domain/schedule_generator.rs:131-151 | no more than the target are placed, and every entry of the list is placed or kept |
| ScheduleGenerator.ScanSound | scheduling-service/src/domain/schedule_generator.rs:134-151 | the plan gives the shift to exactly the placed staff, each admitted by every rule against the roster as it then stood, and the list's entries, counted with repeats, are exactly the placed and the kept |
| ScheduleGenerator.ScanMembers | scheduling-service/src/domain/schedule_generator.rs:134-151 | an entry is placed or kept exactly when it is in the list |
| ScheduleGenerator.ScanSplit | scheduling-service/src/domain/schedule_generator.rs:144-147 | the plan is the roster with the shift given to exactly the placed staff, and an entry is placed or kept exactly when it is in the list |
| ScheduleGenerator.ScanTurn | scheduling-service/src/domain/schedule_generator.rs:134-150 | while below the target, the entry at each position is placed exactly when every rule admits it against the roster the earlier entries left; otherwise it is kept and nothing changes |
| ScheduleGenerator.ScanFull | scheduling-service/src/domain/schedule_generator.rs:134 | once the target is reached, every further entry is kept and nothing else changes |
| ScheduleGenerator.ScanPrefixPlaced | scheduling-service/src/domain/schedule_generator.rs:134-151 | scanning a prefix of the list places no more staff than scanning all of it |
| ScheduleGenerator.ScanSnoc | scheduling-service/src/domain/schedule_generator.rs:134-151 | scanning one entry more is one more step: placed when the target is not reached and every rule admits it, kept otherwise |
| ScheduleGenerator.ScanEnd | scheduling-service/src/domain/schedule_generator.rs:134 | a loop that stops with the list exhausted or the target reached ends where the scan of the whole list ends, the unvisited entries kept |
| ScheduleGenerator.ScanNothingPlaced | scheduling-service/src/domain/schedule_generator.rs:144-150 | a scan with a positive target that places nobody found every entry refused, and leaves the roster and the list as they were |
| ScheduleGenerator.ScanWithoutRules | scheduling-service/src/domain/schedule_generator.rs:134-151 | with no rules, the first `target` entries are placed and the rest kept, in order |
| ScheduleGenerator.AssignShiftType | scheduling-service/src/domain/schedule_generator.rs:123-154 | the new roster and the worklist are where `Scan` ends: the roster is the scan's plan and the worklist is what the scan kept, entries passed over in the order they were met |
| ScheduleGenerator.DayOffFallbackOrder | scheduling-service/src/domain/schedule_generator.rs:181-184 | a preferred day off is tried, then a morning, then an evening, then a day off regardless |
| ScheduleGenerator.ChoiceAdmittedUnlessNoneIs | scheduling-service/src/domain/schedule_generator.rs:186-209 | the chosen shift passes every rule, unless no option does and it is then the preferred one |
| ScheduleGenerator.TryAssign | scheduling-service/src/domain/schedule_generator.rs:157-210 | records the shift that the fallback order chooses, and never fails |
| ScheduleGenerator.AssignAllFillsOpen | scheduling-service/src/domain/schedule_generator.rs:134-151 | placing staff with open slots fills only open slots |
| ScheduleGenerator.LeftoversFill | scheduling-service/src/domain/schedule_generator.rs:116-118 | the left-over pass gives every leftover a shift, keeps every shift already set, and fills only open slots of listed staff |
| ScheduleGenerator.StagesFillDay | scheduling-service/src/domain/schedule_generator.rs:94-118 | the morning scan, the evening scan of what it kept and the left-over pass over what that kept together fill the day |
| ScheduleGenerator.DayResultFillsDay | scheduling-service/src/domain/schedule_generator.rs:77-120 | a day gives every listed staff member a shift on the date, keeps every recorded shift, and gives no unlisted staff member one |
| ScheduleGenerator.AssignShiftsForDay | scheduling-service/src/domain/schedule_generator.rs:77-120 | the new roster is `DayResult`: of the `n` open staff, a scan for up to `n/3` mornings, a scan of the rest for up to `(n - n/3)/2` evenings, then the left-over pass; and it fills the day: every listed staff member has a shift on the date, no earlier shift changes, no one unlisted gains one |
| ScheduleGenerator.ThreeStaffWithoutRules | scheduling-service/src/domain/schedule_generator.rs:94-118 | three open staff and no rules: the first gets a morning, the second an evening, the third a day off |
| ScheduleGenerator.AssignLeftovers | scheduling-service/src/domain/schedule_generator.rs:116-118 | the roster is `Leftovers`: each leftover, in list order, gets the shift `try_assign` settles on for a preferred day off, against the roster as it then stands |
| ScheduleGenerator.AssignmentKeyLeTotal | scheduling-service/src/domain/schedule_generator.rs:63 | ordering by date, then staff id, is a total preorder |
| ScheduleGenerator.FullScheduleIsOnePerStaffAndDate | scheduling-service/src/domain/schedule_generator.rs:39-63 | a full schedule has one assignment per staff member and date |
| ScheduleGenerator.FillPeriod | scheduling-service/src/domain/schedule_generator.rs:38-47 | the roster after the day loop is `PeriodPlan`, and it covers the 28 days: exactly the listed staff, each with exactly those dates |
| ScheduleGenerator.CoversNextDay | scheduling-service/src/domain/schedule_generator.rs:41-47 | filling the next day of a roster that covers the days before it covers that day too |
| ScheduleGenerator.CoveredRowsHaveWidth | scheduling-service/src/domain/schedule_generator.rs:41-47 | a roster covering the first `days` days has exactly `days` dates per staff member |
| ScheduleGenerator.GenerateSchedule | scheduling-service/src/domain/schedule_generator.rs:20-66 | a non-Monday start gives `InvalidInput` with the Monday message, then an empty staff list gives `InvalidInput` with the staff message. Otherwise the result has exactly one assignment per distinct staff member and each of the 28 dates, all carrying the job id, strictly ordered by date and then staff id, 28 times the number of distinct staff in all, each one stating the shift that `PeriodPlan`, the roster built day by day, gives that staff member on that date |
| ScheduleGenerator.CollectAssignments | scheduling-service/src/domain/schedule_generator.rs:49-61 | lists every recorded shift of the roster exactly once, with the job id |
| ScheduleGenerator.CollectStaffEntries | scheduling-service/src/domain/schedule_generator.rs:51-60 | one assignment per date of the staff member's row, with that row's shift |
| ScheduleGenerator.SortedIsFull | scheduling-service/src/domain/schedule_generator.rs:63 | sorting the collected entries of a full roster gives a full schedule |
| ScheduleGenerator.SortedIsStrict | scheduling-service/src/domain/schedule_generator.rs:63 | sorted entries without ties are strictly ordered by date and staff id |
| ScheduleGenerator.SortedKeepsEntries | scheduling-service/src/domain/schedule_generator.rs:63 | a reordering keeps every entry and adds none |
| SchedulingState.DateLeTotal | scheduling-service/src/domain/services/scheduling_rules.rs:189 | ordering by date is a total preorder |
| SchedulingState.ScheduleState.constructor | scheduling-service/src/domain/services/scheduling_rules.rs:31-35 | a new tracker has no shifts |
| SchedulingState.ScheduleState.Assign | scheduling-service/src/domain/services/scheduling_rules.rs:38-43 | afterwards `GetShift` of that slot is the shift, and every other slot is unchanged |
| SchedulingState.ScheduleState.GetShift | scheduling-service/src/domain/services/scheduling_rules.rs:46-48 | the recorded shift, or None for a slot never assigned |
| SchedulingState.ScheduleState.ViolatesNoMorningAfterEvening | scheduling-service/src/domain/services/scheduling_rules.rs:51-80 | true exactly when the no-morning-after-evening rule refuses |
| SchedulingState.ScheduleState.CountDaysOffInWeek | scheduling-service/src/domain/services/scheduling_rules.rs:83-95 | the number of days off of the staff member in the seven days from the week start, at most 7 |
| SchedulingState.ScheduleState.ViolatesDaysOffRules | scheduling-service/src/domain/services/scheduling_rules.rs:98-142 | for a day off, true exactly when the week's days off plus one exceed the maximum; for a work shift, exactly when the days off plus the remaining days are below the minimum |
| SchedulingState.ScheduleState.CountShiftsOnDate | scheduling-service/src/domain/services/scheduling_rules.rs:145-158 | all three keys are present, each holding a head count; they add up to the number of staff with a shift on the date |
| SchedulingState.ScheduleState.ViolatesShiftBalance | scheduling-service/src/domain/services/scheduling_rules.rs:161-179 | true exactly when the shift-balance rule refuses: never for a day off, otherwise when the gap after the simulated +1 exceeds the limit |
| SchedulingState.ScheduleState.GetAllAssignments | scheduling-service/src/domain/services/scheduling_rules.rs:182-191 | lists every stored slot exactly once and nothing else, in non-decreasing date order; with uniform rows of `w` dates, `w` times the number of staff entries |
| SchedulingState.StaffEntries | scheduling-service/src/domain/services/scheduling_rules.rs:184-188 | one entry per date of the row, without repeats |
| SchedulingState.SortedListing | scheduling-service/src/domain/services/scheduling_rules.rs:189 | sorting the listing by date keeps every entry exactly once |
| SchedulingState.TwoDaysOffCounted | scheduling-service/src/domain/services/scheduling_rules.rs:216-231 | days off on a Monday and that Wednesday are counted as two |
| GreedyScheduler.AssignableIsAdmitsAll | scheduling-service/src/domain/services/scheduler.rs:132-155 | the three checks together admit exactly what the four rule modules all admit |
| GreedyScheduler.CanAssign | scheduling-service/src/domain/services/scheduler.rs:132-155 | true exactly when none of the three violation checks objects |
| GreedyScheduler.AssignShiftType | scheduling-service/src/domain/services/scheduler.rs:105-129 | the new roster, the worklist and the returned count are where `ScheduleGenerator.Scan` with the four configured rules ends: the scan's plan, the entries it kept in order, and the number it placed |
| GreedyScheduler.AssignLeftover | scheduling-service/src/domain/services/scheduler.rs:85-99 | records a day off, a morning or an evening (the first that passes the checks, in that order), else a day off |
| GreedyScheduler.GreedyMornings | scheduling-service/src/domain/services/scheduler.rs:62-72 | the morning pass places no more staff than it keeps, so the evening target cannot go below zero |
| GreedyScheduler.EveningsSplit | scheduling-service/src/domain/services/scheduler.rs:74-82 | the evening pass gives the evening to exactly the staff it places, and splits what the morning pass kept into placed and kept |
| GreedyScheduler.GreedyDayFills | scheduling-service/src/domain/services/scheduler.rs:55-102 | on a date no listed staff member has a shift on, a greedy day gives each of them one, keeps every recorded shift, and gives no one else one |
| GreedyScheduler.AssignShiftsForDay | scheduling-service/src/domain/services/scheduler.rs:55-102 | the new roster is `GreedyDayResult`: the morning pass over the whole staff list with target `n/3`, the evening pass over what is left with target `(left - mornings)/2`, which takes the morning count off twice, then the left-over pass preferring a day off |
| GreedyScheduler.FillPeriod | scheduling-service/src/domain/services/scheduler.rs:36-46 | the day loop over a new tracker ends with `GreedyPeriod`, the 28 greedy days |
| GreedyScheduler.GreedyPeriodCovers | scheduling-service/src/domain/services/scheduler.rs:39-46 | the greedy days give exactly the listed staff a shift on each of those dates, and none on any other |
| GreedyScheduler.GreedyPeriodRows | scheduling-service/src/domain/services/scheduler.rs:36-46 | the plan of the whole period has 28 dates for each listed staff member and no one else |
| GreedyScheduler.ValidateWeeklyRequirements | scheduling-service/src/domain/services/scheduler.rs:158-190 | fails with `ValidationError` carrying the message of the first violation, week by week and staff by staff in list order, too few days off checked before too many; passes exactly when every listed staff member's days off lie between the minimum and the maximum in each of the four weeks |
| GreedyScheduler.WeekViolationIffOutside | scheduling-service/src/domain/services/scheduler.rs:170-186 | a week reports no violation exactly when every listed staff member is within the limits in it |
| GreedyScheduler.FirstViolationIffUnmet | scheduling-service/src/domain/services/scheduler.rs:165-189 | the weeks from a given one on report no violation exactly when each of them is within the limits |
| GreedyScheduler.ScheduleErrorNoneIff | scheduling-service/src/domain/services/scheduler.rs:18-52 | there is no error exactly when the start is a Monday, the staff list is not empty and the weekly limits hold |
| GreedyScheduler.GenerateSchedule | scheduling-service/src/domain/services/scheduler.rs:18-52 | the error is `ScheduleError`: a non-Monday start, then an empty staff list, then the first weekly violation of the greedy plan, each as `ValidationError`. Otherwise a new tracker holding `GreedyPeriod` is returned. For a Monday start and staff, the plan has 28 dates for each listed staff member and nobody else, and the result is Ok exactly when the weekly days-off limits hold |
| Entities.ToResponse | scheduling-service/src/domain/entities/shift_assignment.rs:27-35 | the response keeps staff member, date and shift |
| JobStores.IndexedKeys | scheduling-service/tests/common/mod.rs:36-45 | a job id is stored exactly when some listed job carries it |
| JobStores.IndexedLastWins | scheduling-service/tests/common/mod.rs:36-45 | of several jobs with one id, the last listed is stored |
| JobStores.JobStore.constructor | scheduling-service/tests/common/mod.rs:32-34 | a new store is empty |
| JobStores.JobStore.WithJobs | scheduling-service/tests/common/mod.rs:36-45 | the jobs are inserted in list order |
| JobStores.JobStore.Create | scheduling-service/tests/common/mod.rs:50-53 | inserts or overwrites by id and returns the job unchanged |
| JobStores.JobStore.FindById | scheduling-service/tests/common/mod.rs:55-57 | the stored job, or None for an unknown id |
| JobStores.JobStore.UpdateStatus | scheduling-service/tests/common/mod.rs:59-74 | replaces the status and the error message, even with None, of the one job; NotFound and no change for a missing id |
| JobStores.JobStore.MarkCompleted | scheduling-service/tests/common/mod.rs:76-86 | sets Completed and the completion time and keeps the error message; NotFound for a missing id |
| JobStores.JobStore.MarkFailed | scheduling-service/tests/common/mod.rs:88-98 | sets Failed with the message and keeps the completion time; NotFound for a missing id |
| JobStores.WithStatus | scheduling-service/tests/common/mod.rs:59-74 | only status, error message and update time change |
| JobStores.Completion | scheduling-service/tests/common/mod.rs:76-86 | only status, completion time and update time change |
| JobStores.ForJob | scheduling-service/tests/common/mod.rs:130-137 | the filter is no longer than its input |
| JobStores.ForJobMembers | scheduling-service/tests/common/mod.rs:130-137 | keeps exactly the assignments carrying the job id |
| JobStores.ForJobAppend | scheduling-service/tests/common/mod.rs:124-137 | filtering a concatenation concatenates the filtered parts |
| JobStores.ForJobOfOneJob | scheduling-service/tests/common/mod.rs:130-137 | a list of one job is kept whole, in order |
| JobStores.ForJobOfOtherJobs | scheduling-service/tests/common/mod.rs:130-137 | a list without the job gives nothing |
| JobStores.AssignmentStore.constructor | scheduling-service/tests/common/mod.rs:108-110 | a new store is empty |
| JobStores.AssignmentStore.WithAssignments | scheduling-service/tests/common/mod.rs:112-119 | the store holds the given list |
| JobStores.AssignmentStore.CreateBatch | scheduling-service/tests/common/mod.rs:124-128 | appends the batch, in order |
| JobStores.AssignmentStore.FindByJobId | scheduling-service/tests/common/mod.rs:130-137 | exactly the stored assignments of the job, in insertion order |
| JobStores.SavedBatchReadBack | scheduling-service/tests/common/mod.rs:124-137 | a batch saved for a job the store held nothing of is read back exactly |
| JobStores.SampleJob | scheduling-service/tests/common/mod.rs:193-210 | no error message and no completion time |
| JobStores.CompletedJob | scheduling-service/tests/common/mod.rs:213-229 | Completed, no error message, a completion time |
| JobStores.CreateSampleAssignments | scheduling-service/tests/common/mod.rs:232-257 | seven consecutive days per staff member, staff by staff, with shift `[Morning, Evening, DayOff][(staff index + day) % 3]` |
| JobStores.SampleAssignmentsOfOneJob | scheduling-service/tests/common/mod.rs:232-257 | the store gives back all the sample assignments for their job |
| JobProcessing.FailureMessage | scheduling-service/src/infrastructure/job_processor.rs:66 | "Scheduling failed: " followed by the error's `Debug` text |
| JobProcessing.ResolverFailure | scheduling-service/src/infrastructure/job_processor.rs:78-82 | every resolver error, NotFound included, becomes `ExternalServiceError` carrying its text |
| JobProcessing.SchedulingError | scheduling-service/src/infrastructure/job_processor.rs:77-111 | no error exactly when the resolver returned members and the start is a Monday; a resolver error is wrapped, an empty group gives `InvalidInput`, and so does a start the generator refuses |
| JobProcessing.Processed | scheduling-service/src/infrastructure/job_processor.rs:55-73 | the job ends Completed exactly when there was no error, else Failed with the failure message; nothing of the request changes |
| JobProcessing.RecordOutcome | scheduling-service/src/infrastructure/job_processor.rs:59-73 | the outcome is passed on; the one job becomes `Processed`, with no error on a pass and with the failure's error otherwise, and no other job changes |
| JobProcessing.ToAssignments | scheduling-service/src/domain/services_old/schedule_processor.rs:114-125 | one assignment per listed tuple, with the job id and the same staff member, date and shift |
| JobProcessing.JobProcessor.constructor | scheduling-service/src/infrastructure/job_processor.rs:52-111 | the processor holds the given stores and rules |
| JobProcessing.JobProcessor.ExecuteScheduling | scheduling-service/src/infrastructure/job_processor.rs:77-111 | on an error nothing is saved; otherwise a full schedule of the job is appended to the assignment store |
| JobProcessing.JobProcessor.ProcessJob | scheduling-service/src/infrastructure/job_processor.rs:52-74 | an unknown job fails with the store's `NotFound` at the first write and nothing changes; otherwise the job ends `Processed` with `SchedulingError` (Completed after its schedule is saved, or Failed with the error that is also returned) |
| JobProcessing.ScheduleProcessor.constructor | scheduling-service/src/domain/services_old/schedule_processor.rs:58-83 | the processor holds the given stores and limits |
| JobProcessing.ScheduleProcessor.ExecuteScheduling | scheduling-service/src/domain/services_old/schedule_processor.rs:86-133 | a resolver error becomes `ExternalServiceError` and an empty group `InvalidInput`; otherwise the error is the greedy scheduler's `ScheduleError` on the greedy plan, a non-Monday start giving `ValidationError`. An error is returned and nothing is saved; without one the plan's listing is appended, one entry per slot with the job id and the plan's shift, 28 per distinct member |
| JobProcessing.ScheduleProcessor.ScheduleMembers | scheduling-service/src/domain/services_old/schedule_processor.rs:108-132 | for a non-empty group, the greedy scheduler's error on the greedy plan is returned with nothing saved; without one the plan's listing is appended, 28 entries per distinct member |
| JobProcessing.ScheduleProcessor.SaveSchedule | scheduling-service/src/domain/services_old/schedule_processor.rs:113-130 | appends the tracker's listing as assignments of the job, one per slot of its plan, with the plan's shift, and passes; with rows of `w` dates, `w` per staff member |
| JobProcessing.ListedAssignments | scheduling-service/src/domain/services_old/schedule_processor.rs:114-125 | the converted listing of a tracker lists its plan: each entry carries the job id and the plan's shift, every slot is listed, and none twice |
| JobProcessing.ScheduleProcessor.ProcessScheduleRequest | scheduling-service/src/domain/services_old/schedule_processor.rs:59-83 | an unknown job fails with the store's `NotFound` and nothing changes; otherwise the error is as `ExecuteScheduling` states, a non-Monday start giving `ValidationError`, the job ends `Processed` with it, and the plan's listing is saved exactly when there was none |
| ScheduleHandlers.JobQueue.Send | scheduling-service/src/api/handlers/schedule_handlers.rs:73-82 | delivers and appends exactly while the receiver is alive |
| ScheduleHandlers.NewJob | scheduling-service/src/api/handlers/schedule_handlers.rs:48-57 | a new job is Pending, without error or completion time, with the request's group and date |
| ScheduleHandlers.SubmitSchedule | scheduling-service/src/api/handlers/schedule_handlers.rs:32-87 | a non-Monday start gives 400 and writes nothing; otherwise the job is stored, the request carrying its id, group and date is queued, and the reply is 202 with the id and Pending, or 500 when the queue is closed |
| ScheduleHandlers.StatusView | scheduling-service/src/api/handlers/schedule_handlers.rs:114 | every field of the job is copied |
| ScheduleHandlers.GetScheduleStatus | scheduling-service/src/api/handlers/schedule_handlers.rs:103-117 | 404 exactly for an unknown id; otherwise 200 with the job's fields |
| ScheduleHandlers.Responses | scheduling-service/src/api/handlers/schedule_handlers.rs:164-165 | same length and order, same staff member, date and shift |
| ScheduleHandlers.GetScheduleResult | scheduling-service/src/api/handlers/schedule_handlers.rs:134-175 | 404 for an unknown id; 400 naming the status for any status but Completed; otherwise 200 with the job's stored assignments, projected, in order |
| ScheduleHandlers.CompletedJobServesItsBatch | scheduling-service/src/api/handlers/schedule_handlers.rs:158-171 | a job processed to completion serves exactly the batch its run saved |
| StaffDirectory.HavingStatus | data-service/src/infrastructure/group_service.rs:57-60 | only members with the status, none more than the input holds |
| StaffDirectory.HavingStatusCounts | data-service/src/infrastructure/group_service.rs:57-60 | each member with the status is kept as often as it occurs, and the others are dropped |
| StaffDirectory.HavingStatusMembers | data-service/tests/common/mod.rs:79-98 | a member is kept exactly when it is listed with the status |
| StaffDirectory.NameLeTotal | data-service/src/infrastructure/group_service.rs:62 | ordering by name is a total preorder |
| StaffDirectory.SkipTake | data-service/tests/common/mod.rs:66-77 | the page holds the elements from the offset on, and at most the page size of them |
| StaffDirectory.Paginate | data-service/tests/common/mod.rs:66-77 | the total is the listing's size; the page has `min(page_size, max(0, total - (page-1)*page_size))` items, taken from the offset |
| StaffDirectory.CheckedPageOffset | data-service/tests/common/mod.rs:66-77 | no offset exactly for page 0 or a `u32` overflow of the product |
| StaffDirectory.ListPage | data-service/tests/common/mod.rs:66-77 | no page exactly where the offset panics; otherwise `Paginate` |
| StaffDirectory.FirstPageOfTwo | data-service/tests/common/mod.rs:66-77 | three items, page 1 of size 2: the first two, and a total of 3 |
| GroupRepository.StaffIdsOf | data-service/src/infrastructure/repositories/postgres_group_repository.rs:192 | each row's staff id, in row order |
| GroupRepository.Dedup | data-service/src/infrastructure/repositories/postgres_group_repository.rs:194 | the same values without adjacent repeats; on sorted input, strictly increasing |
| GroupRepository.StrictlyIncreasingIsDistinct | data-service/src/infrastructure/repositories/postgres_group_repository.rs:193-194 | a strictly increasing list has no repeats |
| GroupRepository.DistinctIdsCount | data-service/src/infrastructure/repositories/postgres_group_repository.rs:191-196 | a repeat-free list of the rows' ids is as long as the number of distinct ids |
| GroupRepository.UniqueCount | data-service/src/infrastructure/repositories/postgres_group_repository.rs:191-196 | the count is the number of distinct staff ids among the rows |
| GroupRepository.FoldRows | data-service/src/infrastructure/repositories/postgres_group_repository.rs:198-229 | the entries' members, in order, are the rows' staff in row order under their rows' group ids; neighbouring entries differ in group; no rows give no entries |
| GroupRepository.GetResolvedMembers | data-service/src/infrastructure/repositories/postgres_group_repository.rs:189-231 | a query error is returned unchanged; otherwise the entries folded as `FoldRows` states, and the distinct count; no rows give `([], 0)` |
| GroupRepository.FoldedTotal | data-service/src/infrastructure/repositories/postgres_group_repository.rs:201-229 | the members across entries are exactly as many as the rows, and there are no more entries than rows |
| GroupRepository.MergeUpdate | data-service/src/infrastructure/repositories/postgres_group_repository.rs:110-111 | a given name replaces the name; the parent is `request.parent_id.or(current.parent_id)`, so it can never be cleared |
| GroupRepository.MergeUpdateIdempotent | data-service/src/infrastructure/repositories/postgres_group_repository.rs:110-111 | applying an update twice is applying it once |
| GroupRepository.Update | data-service/src/infrastructure/repositories/postgres_group_repository.rs:96-118 | a lookup error is passed on; NotFound for an unknown id; otherwise the merged group |
| GroupService.JoinAllOk | data-service/src/infrastructure/group_service.rs:38-42 | the join succeeds exactly when every group's fetch succeeds |
| GroupService.JoinAllFirstError | data-service/src/infrastructure/group_service.rs:38-42 | a failed join reports the error of the first group whose fetch failed |
| GroupService.JoinAllMembers | data-service/src/infrastructure/group_service.rs:38-42 | a membership is joined exactly when some group's fetch returned it |
| GroupService.MemberIds | data-service/src/infrastructure/group_service.rs:45-49 | each membership's staff id, in order |
| GroupService.SetToSeq | data-service/src/infrastructure/group_service.rs:45-51 | every element of the set once, in some order |
| GroupService.ActiveByNameMembers | data-service/src/infrastructure/group_service.rs:57-62 | the result holds exactly the Active staff of the fetched records |
| GroupService.GetResolvedMembers | data-service/src/infrastructure/group_service.rs:32-65 | queries the group followed by its descendants; any fetch error is returned unchanged; the ids given to `find_by_ids` are distinct and are exactly the fetched memberships' staff ids; the result is the fetched records' Active members, as a multiset, in non-decreasing name order |
| DataStores.MapValues | data-service/tests/common/mod.rs:66-77 | the values of the map, one per key, in any order |
| DataStores.ListingSize | data-service/tests/common/mod.rs:66-77 | a listing has one element per stored key |
| DataStores.ListedAt | data-service/tests/common/mod.rs:66-77 | each stored value has a position in the listing |
| DataStores.FilteredCount | data-service/tests/common/mod.rs:79-98 | filtering a listing by status keeps one element per key with that status |
| DataStores.NewStaff | data-service/tests/common/mod.rs:37-50 | the request's fields, Active when no status is given |
| DataStores.MergeStaff | data-service/tests/common/mod.rs:100-121 | each field given overwrites, the others are kept |
| DataStores.EmptyStaffUpdate | data-service/tests/common/mod.rs:100-121 | an update with no fields moves only the update time |
| DataStores.StaffStore.constructor | data-service/tests/common/mod.rs:19-21 | a new store is empty |
| DataStores.StaffStore.Create | data-service/tests/common/mod.rs:37-50 | stores the new staff member, who is then found by id |
| DataStores.StaffStore.FindById | data-service/tests/common/mod.rs:52-54 | the stored staff member, or None for an unknown id |
| DataStores.StaffStore.FindByEmail | data-service/tests/common/mod.rs:56-64 | None exactly when no stored staff member has the email; otherwise one that has it |
| DataStores.StaffStore.List | data-service/tests/common/mod.rs:66-77 | a page of a listing of all staff; the total is the store's size; None where the offset panics |
| DataStores.StaffStore.ListByStatus | data-service/tests/common/mod.rs:79-98 | a page of the staff with the status; the total counts the staff with the status; None where the offset panics |
| DataStores.StaffStore.Update | data-service/tests/common/mod.rs:100-121 | NotFound and no change for an unknown id; otherwise the merged staff member is stored and returned |
| DataStores.StaffStore.Delete | data-service/tests/common/mod.rs:123-130 | NotFound for an unknown id; otherwise the entry is removed; after either, a lookup gives None |
| DataStores.StaffStore.FindByGroupId | data-service/tests/common/mod.rs:132-140 | every Active staff member, whatever the group |
| DataStores.SampleStaff | data-service/tests/common/mod.rs:314-325 | a Developer, Active |
| DataStores.NewGroup | data-service/tests/common/mod.rs:168-179 | the request's name and parent |
| DataStores.GroupStore.constructor | data-service/tests/common/mod.rs:150-152 | a new store is empty |
| DataStores.GroupStore.Create | data-service/tests/common/mod.rs:168-179 | stores the new group, which is then found by id |
| DataStores.GroupStore.FindById | data-service/tests/common/mod.rs:181-183 | the stored group, or None for an unknown id |
| DataStores.GroupStore.FindByName | data-service/tests/common/mod.rs:224-232 | None exactly when no stored group has the name; otherwise one that has it |
| DataStores.GroupStore.List | data-service/tests/common/mod.rs:185-196 | a page of a listing of all groups; the total is the store's size; None where the offset panics |
| DataStores.GroupStore.Update | data-service/tests/common/mod.rs:198-213 | NotFound and no change for an unknown id; otherwise the group merged as the database store merges it; a parent is set only when one is given |
| DataStores.GroupStore.Delete | data-service/tests/common/mod.rs:215-222 | NotFound for an unknown id; otherwise the entry is removed; after either, a lookup gives None |
| DataStores.GroupStore.GetResolvedMembers | data-service/tests/common/mod.rs:234-253 | NotFound exactly for an unknown group; otherwise one entry with no members and a count of 0 |
| DataStores.SampleGroup | data-service/tests/common/mod.rs:328-337 | the given id, name and parent |
| DataStores.RetainedCounts | data-service/tests/common/mod.rs:284 | every other membership is kept as often as it occurs, and every tying one is dropped |
| DataStores.RetainedKeepsAll | data-service/tests/common/mod.rs:283-285 | nothing is dropped exactly when nothing ties the staff member to the group |
| DataStores.RetainedSame | data-service/tests/common/mod.rs:284 | when nothing ties, the list is unchanged |
| DataStores.MembershipStore.constructor | data-service/tests/common/mod.rs:263-265 | a new store is empty |
| DataStores.MembershipStore.AddMember | data-service/tests/common/mod.rs:270-279 | appends the new membership and returns it |
| DataStores.MembershipStore.RemoveMember | data-service/tests/common/mod.rs:281-292 | drops every tying membership and keeps the rest in order; NotFound exactly when none tied, and then nothing changes |

## Left out

- Calendar: dates are unbounded day numbers. chrono's date overflow (`checked_add_signed` returning None, "Invalid date") and the `unwrap_or` fallbacks of the rules' week arithmetic are not modelled. Neither can happen inside chrono's range.
- `ShiftAssignment.id` and `created_at` are not modelled: `Uuid::new_v4()` and `Utc::now()` per assignment, never read by the logic. Fresh ids and `now` are parameters elsewhere.
- ScheduleHandlers.SubmitSchedule: "two submissions yield distinct ids" rests on `Uuid::new_v4()`, which is a parameter here, so that property is not stated.
- Concurrency: the mpsc channel, the `tokio::spawn` loop and `start()` of both processors are not modelled. Only a single processing run is modelled.
- GroupService.JoinAll: `try_join_all` runs the fetches concurrently. A failure is modelled as the error of the first failing group in list order.
- SQL, the recursive descendants query, transactions and database errors of the postgres stores are modelled only through their in-memory counterparts and the query result as input. The same holds for Redis, HTTP routing, OpenAPI, the network clients and configuration.
- GroupRepository.Update: a database error of the final `UPDATE` is not modelled.
- GroupRepository.FoldRows: states only each entry's group id. It does not state that an entry's group record is the one of the entry's first row.
- `PaginatedResponse::new` uses floating-point `ceil` and is not modelled. Pagination arithmetic is 32-bit: page 0 and a product above `u32::MAX` panic, and ListPage models both as None.
- GroupService.GetResolvedMembers: `sort_by` is stable, but its input order comes from a `HashSet`. The contract states the multiset and the name order, not the order among equal names.
- DataStores.StaffStore.FindByEmail and DataStores.GroupStore.FindByName return some match, not a particular one, because hash-map order is unspecified.
- `with_staff` and `with_groups` of the data-service stores are not modelled. The scheduling-side `with_jobs` is modelled.
- `DomainError::ValidationError` is raised by the greedy scheduler but is not declared in shared/src/error.rs. It is modelled as an extra variant whose text is assumed to be "Validation error: {0}".
- Error texts that embed an id, a number or a date are rendered by `UuidText` (hyphenated lower-case hexadecimal), `NatText` and `DateText` (`YYYY-MM-DD`). Their contracts state only lengths and digits; `Text.KnownDate` pins one date.
- Types.Debug: Rust's `{:?}` also writes `\u{..}` for non-ASCII characters it does not print, such as unassigned code points and combining (grapheme-extend) characters. The model escapes only the C0, DEL and C1 control characters and writes every other character as itself, because Unicode's printability tables are not modelled.
- The day loops of both generators walk the dates `start` to `start + 27` directly, without the `checked_add_signed` step. With unbounded day numbers that step cannot fail.
- Logging (`tracing`) is left out.
- The `Rule::name` strings are left out.
