/**
 * The background processing of one schedule job: record Processing, fetch
 * the group's members (an input here: whatever the data service answered),
 * generate the 28-day schedule, save it, and record Completed, or record
 * Failed with the error. `JobProcessor` drives the rule-driven generator;
 * `ScheduleProcessor`, its older twin, drives the greedy scheduler.
 */
module JobProcessing {
  import opened Types
  import opened Entities
  import opened Plan
  import opened Rules
  import opened JobStores
  import opened SchedulingState
  import opened Text
  import SG = ScheduleGenerator
  import GS = GreedyScheduler

  /** What the job queue carries: the job to run and what to schedule. */
  datatype ScheduleJobRequest = ScheduleJobRequest(jobId: Uuid, staffGroupId: Uuid, periodBeginDate: Date)

  const NoActiveStaffMessage: string := "No active staff members found in the group"

  /** The message a failed job records: a fixed prefix and the error's `Debug` text. */
  function FailureMessage(e: DomainError): (m: string)
    ensures |m| == 19 + |Debug(e)| && m[..19] == "Scheduling failed: " && m[19..] == Debug(e)
  {
    "Scheduling failed: " + Debug(e)
  }

  /** A data-service failure, whatever its kind, reaches the job as an external-service error. */
  function ResolverFailure(e: DomainError): (f: DomainError)
    ensures f.ExternalServiceError? && f.message == Display(e)
  {
    ExternalServiceError(Display(e))
  }

  /**
   * The error the rule-driven scheduling of a job ends in, or `None` when it
   * saves a schedule: a resolver failure, an empty group, or a start date
   * the generator refuses.
   */
  function SchedulingError(members: Result<seq<Uuid>>, periodBeginDate: Date): (e: Option<DomainError>)
    ensures e.None? <==> members.Ok? && members.value != [] && IsMonday(periodBeginDate)
    ensures members.Err? ==> e == Some(ResolverFailure(members.error))
    ensures members == Ok([]) ==> e == Some(InvalidInput(NoActiveStaffMessage))
  {
    if members.Err? then Some(ResolverFailure(members.error))
    else if members.value == [] then Some(InvalidInput(NoActiveStaffMessage))
    else if !IsMonday(periodBeginDate) then Some(InvalidInput(SG.NotMondayMessage))
    else None
  }

  /**
   * A stored job after a processing run that found it: Processing was
   * recorded with no error, then exactly one terminal write followed.
   */
  function Processed(job: ScheduleJob, error: Option<DomainError>, now: Timestamp): (j: ScheduleJob)
    ensures SameRequest(j, job) && j.updatedAt == now
    ensures j.status == Completed <==> error.None?
    ensures j.status == Failed <==> error.Some?
    ensures error.None? ==> j.errorMessage == None && j.completedAt == Some(now)
    ensures error.Some? ==> j.errorMessage == Some(FailureMessage(error.value)) && j.completedAt == job.completedAt
  {
    var processing := WithStatus(job, Processing, None, now);
    match error
    case None => Completion(processing, now)
    case Some(e) => WithStatus(processing, Failed, Some(FailureMessage(e)), now)
  }

  /**
   * The last write of a run that found its job, still as Processing left it:
   * Completed when scheduling passed, otherwise Failed with the error's
   * message; the scheduling outcome is passed on.
   */
  method RecordOutcome(jobRepo: JobStore, jobId: Uuid, executed: Outcome, ghost job: ScheduleJob, now: Timestamp)
    returns (r: Outcome)
    requires jobId in jobRepo.jobs && jobRepo.jobs[jobId] == WithStatus(job, Processing, None, now)
    modifies jobRepo
    ensures r == executed
    ensures jobRepo.jobs == old(jobRepo.jobs)[jobId := Processed(job, if executed.Pass? then None else Some(executed.error), now)]
  {
    match executed
    case Pass =>
      r := jobRepo.MarkCompleted(jobId, now);
    case Fail(e) =>
      var errorMessage := FailureMessage(e);
      r := jobRepo.MarkFailed(jobId, errorMessage, now);
      r := Fail(e);
  }

  /** `get_all_assignments` tuples as assignments of one job, one for one. */
  function ToAssignments(jobId: Uuid, entries: seq<Entry>): (rs: seq<ShiftAssignment>)
    ensures |rs| == |entries|
    ensures forall i :: 0 <= i < |rs| ==>
              rs[i] == ShiftAssignment(jobId, entries[i].0, entries[i].1, entries[i].2)
  {
    if entries == [] then []
    else
      var e := entries[|entries| - 1];
      ToAssignments(jobId, entries[..|entries| - 1]) + [ShiftAssignment(jobId, e.0, e.1, e.2)]
  }

  class JobProcessor {
    const jobRepo: JobStore
    const assignmentRepo: AssignmentStore
    /** The rules of the generator the processor holds. */
    const rules: seq<Rule>

    constructor (jobRepo: JobStore, assignmentRepo: AssignmentStore, rules: seq<Rule>)
      ensures this.jobRepo == jobRepo && this.assignmentRepo == assignmentRepo && this.rules == rules
    {
      this.jobRepo := jobRepo;
      this.assignmentRepo := assignmentRepo;
      this.rules := rules;
    }

    /**
     * Schedules the job's group from the members the data service returned
     * and saves the result. Nothing is saved unless a full schedule was built.
     */
    method ExecuteScheduling(request: ScheduleJobRequest, members: Result<seq<Uuid>>)
      returns (r: Outcome, ghost batch: seq<ShiftAssignment>)
      modifies assignmentRepo
      ensures SchedulingError(members, request.periodBeginDate).Some? ==>
                r == Fail(SchedulingError(members, request.periodBeginDate).value) &&
                assignmentRepo.assignments == old(assignmentRepo.assignments)
      ensures SchedulingError(members, request.periodBeginDate).None? ==>
                r == Pass && assignmentRepo.assignments == old(assignmentRepo.assignments) + batch &&
                SG.IsFullSchedule(batch, members.value, request.periodBeginDate, request.jobId) &&
                |batch| == SG.PeriodDays * |Members(members.value)| &&
                SG.ListsShiftsOf(batch, SG.PeriodPlan(rules, members.value, request.periodBeginDate, request.periodBeginDate + SG.PeriodDays), Members(members.value), request.jobId)
    {
      batch := [];
      if members.Err? {
        return Fail(ResolverFailure(members.error)), batch;
      }
      var staffMembers := members.value;
      if staffMembers == [] {
        return Fail(InvalidInput(NoActiveStaffMessage)), batch;
      }
      var generated := SG.GenerateSchedule(rules, staffMembers, request.periodBeginDate, request.jobId);
      if generated.Err? {
        return Fail(generated.error), batch;
      }
      var assignments := generated.value;
      batch := assignments;
      r := assignmentRepo.CreateBatch(assignments);
    }

    /**
     * Runs one job. If the job is unknown, the first write fails and nothing
     * else happens; otherwise the job ends Completed with its schedule saved,
     * or Failed with the scheduling error recorded and returned.
     */
    method ProcessJob(request: ScheduleJobRequest, members: Result<seq<Uuid>>, now: Timestamp)
      returns (r: Outcome, ghost batch: seq<ShiftAssignment>)
      modifies jobRepo, assignmentRepo
      ensures request.jobId !in old(jobRepo.jobs) ==>
                r == Fail(IdNotFound(JobLabel, request.jobId)) && jobRepo.jobs == old(jobRepo.jobs) &&
                assignmentRepo.assignments == old(assignmentRepo.assignments)
      ensures request.jobId in old(jobRepo.jobs) ==>
                var error := SchedulingError(members, request.periodBeginDate);
                jobRepo.jobs == old(jobRepo.jobs)[request.jobId := Processed(old(jobRepo.jobs)[request.jobId], error, now)] &&
                (error.Some? ==> r == Fail(error.value) && assignmentRepo.assignments == old(assignmentRepo.assignments)) &&
                (error.None? ==>
                   r == Pass && assignmentRepo.assignments == old(assignmentRepo.assignments) + batch &&
                   SG.IsFullSchedule(batch, members.value, request.periodBeginDate, request.jobId) &&
                   |batch| == SG.PeriodDays * |Members(members.value)| &&
                   SG.ListsShiftsOf(batch, SG.PeriodPlan(rules, members.value, request.periodBeginDate, request.periodBeginDate + SG.PeriodDays), Members(members.value), request.jobId))
    {
      batch := [];
      r := jobRepo.UpdateStatus(request.jobId, Processing, None, now);
      if r.Fail? {
        return;
      }
      ghost var job := old(jobRepo.jobs)[request.jobId];
      var executed;
      executed, batch := ExecuteScheduling(request, members);
      r := RecordOutcome(jobRepo, request.jobId, executed, job, now);
    }
  }

  /**
   * `batch` lists the plan as assignments of the job: each entry carries the
   * job id and the shift the plan gives its listed staff member on its date,
   * each slot of the plan is listed, and none twice.
   */
  ghost predicate ListsPlan(batch: seq<ShiftAssignment>, plan: Plan, staff: set<Uuid>, jobId: Uuid)
  {
    SG.ListsShiftsOf(batch, plan, staff, jobId) &&
    (forall s, d :: ShiftOf(plan, s, d).Some? ==> SG.HasEntry(batch, s, d)) &&
    SG.OnePerStaffAndDate(batch)
  }

  class ScheduleProcessor {
    const jobRepo: JobStore
    const assignmentRepo: AssignmentStore
    /** The greedy scheduler's configuration. */
    const rules: SchedulingRules

    constructor (jobRepo: JobStore, assignmentRepo: AssignmentStore, rules: SchedulingRules)
      ensures this.jobRepo == jobRepo && this.assignmentRepo == assignmentRepo && this.rules == rules
    {
      this.jobRepo := jobRepo;
      this.assignmentRepo := assignmentRepo;
      this.rules := rules;
    }

    /**
     * Schedules the group with the greedy scheduler and saves its listing as
     * assignments of the job. A schedule failing the weekly days-off check is
     * refused with its first violation, and nothing is saved.
     */
    method ExecuteScheduling(request: ScheduleRequest, members: Result<seq<Uuid>>)
      returns (r: Outcome, ghost batch: seq<ShiftAssignment>, ghost plan: Plan, ghost error: Option<DomainError>)
      modifies assignmentRepo
      ensures members.Err? ==> error == Some(ResolverFailure(members.error))
      ensures members == Ok([]) ==> error == Some(InvalidInput(NoActiveStaffMessage))
      ensures members.Ok? && members.value != [] ==>
                plan == GS.GreedyPeriod(GS.AsRules(rules), members.value, request.periodBeginDate, request.periodBeginDate + SG.PeriodDays) &&
                error == GS.ScheduleError(rules, members.value, request.periodBeginDate, plan)
      ensures members.Ok? && members.value != [] && !IsMonday(request.periodBeginDate) ==>
                error == Some(ValidationError(SG.NotMondayMessage))
      ensures error.None? ==> members.Ok?
      ensures error == if r.Pass? then None else Some(r.error)
      ensures Saved(error, r, old(assignmentRepo.assignments), assignmentRepo.assignments, batch, plan, members, request.jobId)
    {
      batch, plan := [], map[];
      if members.Err? {
        error := Some(ResolverFailure(members.error));
        return Fail(ResolverFailure(members.error)), batch, plan, error;
      }
      var staffMembers := members.value;
      if staffMembers == [] {
        error := Some(InvalidInput(NoActiveStaffMessage));
        return Fail(InvalidInput(NoActiveStaffMessage)), batch, plan, error;
      }
      plan := GS.GreedyPeriod(GS.AsRules(rules), staffMembers, request.periodBeginDate, request.periodBeginDate + SG.PeriodDays);
      error := GS.ScheduleError(rules, staffMembers, request.periodBeginDate, plan);
      r, batch := ScheduleMembers(request, staffMembers);
    }

    /** Schedules a non-empty group with the greedy scheduler and saves the schedule it returns. */
    method ScheduleMembers(request: ScheduleRequest, staffMembers: seq<Uuid>)
      returns (r: Outcome, ghost batch: seq<ShiftAssignment>)
      requires staffMembers != []
      modifies assignmentRepo
      ensures var plan := GS.GreedyPeriod(GS.AsRules(rules), staffMembers, request.periodBeginDate, request.periodBeginDate + SG.PeriodDays);
              var error := GS.ScheduleError(rules, staffMembers, request.periodBeginDate, plan);
              (error.Some? ==> r == Fail(error.value) && assignmentRepo.assignments == old(assignmentRepo.assignments)) &&
              (error.None? ==>
                 r == Pass && assignmentRepo.assignments == old(assignmentRepo.assignments) + batch &&
                 |batch| == SG.PeriodDays * |Members(staffMembers)| &&
                 ListsPlan(batch, plan, Members(staffMembers), request.jobId))
    {
      batch := [];
      var generated := GS.GenerateSchedule(rules, staffMembers, request.periodBeginDate);
      if generated.Err? {
        return Fail(generated.error), batch;
      }
      r, batch := SaveSchedule(request.jobId, generated.value);
    }

    /** Saves the tracker's listing as assignments of the job, one per slot of its plan. */
    method SaveSchedule(jobId: Uuid, scheduleState: ScheduleState) returns (r: Outcome, ghost batch: seq<ShiftAssignment>)
      modifies assignmentRepo
      ensures r == Pass && assignmentRepo.assignments == old(assignmentRepo.assignments) + batch
      ensures ListsPlan(batch, scheduleState.assignments, scheduleState.assignments.Keys, jobId)
      ensures forall width: nat :: UniformRows(scheduleState.assignments, width) ==> |batch| == width * |scheduleState.assignments.Keys|
    {
      var listing := scheduleState.GetAllAssignments();
      var assignments := ToAssignments(jobId, listing);
      ListedAssignments(jobId, listing, assignments, scheduleState.assignments);
      batch := assignments;
      r := assignmentRepo.CreateBatch(assignments);
    }

    /**
     * Runs one job with the greedy scheduler: the state machine of
     * `JobProcessor.ProcessJob`, ending in the greedy scheduling's error or
     * with the greedy plan saved.
     */
    method ProcessScheduleRequest(request: ScheduleRequest, members: Result<seq<Uuid>>, now: Timestamp)
      returns (r: Outcome, ghost batch: seq<ShiftAssignment>, ghost plan: Plan, ghost error: Option<DomainError>)
      modifies jobRepo, assignmentRepo
      ensures request.jobId !in old(jobRepo.jobs) ==>
                r == Fail(IdNotFound(JobLabel, request.jobId)) && jobRepo.jobs == old(jobRepo.jobs) &&
                assignmentRepo.assignments == old(assignmentRepo.assignments)
      ensures request.jobId in old(jobRepo.jobs) && members.Err? ==>
                error == Some(ResolverFailure(members.error))
      ensures request.jobId in old(jobRepo.jobs) && members == Ok([]) ==>
                error == Some(InvalidInput(NoActiveStaffMessage))
      ensures request.jobId in old(jobRepo.jobs) && members.Ok? && members.value != [] ==>
                plan == GS.GreedyPeriod(GS.AsRules(rules), members.value, request.periodBeginDate, request.periodBeginDate + SG.PeriodDays) &&
                error == GS.ScheduleError(rules, members.value, request.periodBeginDate, plan)
      ensures request.jobId in old(jobRepo.jobs) && members.Ok? && members.value != [] && !IsMonday(request.periodBeginDate) ==>
                error == Some(ValidationError(SG.NotMondayMessage))
      ensures request.jobId in old(jobRepo.jobs) ==>
                jobRepo.jobs == old(jobRepo.jobs)[request.jobId := Processed(old(jobRepo.jobs)[request.jobId], error, now)] &&
                (error.None? ==> members.Ok?) &&
                Saved(error, r, old(assignmentRepo.assignments), assignmentRepo.assignments, batch, plan, members, request.jobId)
    {
      batch, plan, error := [], map[], None;
      r := jobRepo.UpdateStatus(request.jobId, Processing, None, now);
      if r.Fail? {
        return;
      }
      ghost var job := old(jobRepo.jobs)[request.jobId];
      var executed;
      executed, batch, plan, error := ExecuteScheduling(request, members);
      r := RecordOutcome(jobRepo, request.jobId, executed, job, now);
    }
  }

  /**
   * The assignment store before and after a greedy run whose scheduling
   * ended in `error`: unchanged and the error returned, or the listing
   * `batch` of the plan appended, one entry per member and day.
   */
  ghost predicate Saved(error: Option<DomainError>, r: Outcome, before: seq<ShiftAssignment>, after: seq<ShiftAssignment>,
                        batch: seq<ShiftAssignment>, plan: Plan, members: Result<seq<Uuid>>, jobId: Uuid)
  {
    (error.Some? ==> r == Fail(error.value) && after == before) &&
    (error.None? ==>
       members.Ok? && r == Pass && after == before + batch &&
       |batch| == SG.PeriodDays * |Members(members.value)| &&
       ListsPlan(batch, plan, Members(members.value), jobId))
  }

  /** The tracker's listing turned into assignments of the job lists the tracker's plan. */
  lemma ListedAssignments(jobId: Uuid, listing: seq<Entry>, batch: seq<ShiftAssignment>, plan: Plan)
    requires batch == ToAssignments(jobId, listing)
    requires forall i :: 0 <= i < |listing| ==> ShiftOf(plan, listing[i].0, listing[i].1) == Some(listing[i].2)
    requires forall s, d :: ShiftOf(plan, s, d).Some? ==> exists i :: 0 <= i < |listing| && listing[i].0 == s && listing[i].1 == d
    requires forall i, j :: 0 <= i < j < |listing| ==> listing[i].0 != listing[j].0 || listing[i].1 != listing[j].1
    ensures ListsPlan(batch, plan, plan.Keys, jobId)
  {
    forall i | 0 <= i < |batch| ensures batch[i].staffId in plan.Keys {
      assert ShiftOf(plan, listing[i].0, listing[i].1).Some?;
    }
    forall s, d | ShiftOf(plan, s, d).Some? ensures SG.HasEntry(batch, s, d) {
      var i :| 0 <= i < |listing| && listing[i].0 == s && listing[i].1 == d;
      assert batch[i].staffId == s && batch[i].date == d;
    }
  }

  /** The older processor's request message: the same three fields. */
  type ScheduleRequest = ScheduleJobRequest
}
