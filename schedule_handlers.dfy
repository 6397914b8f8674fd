/**
 * The three schedule endpoints: submitting a job (Monday check, job
 * creation, hand-off to the job queue), reading a job's status, and
 * reading a finished job's assignments.
 */
module ScheduleHandlers {
  import opened Types
  import opened Entities
  import opened JobStores
  import opened JobProcessing

  const StatusOk: nat := 200
  const StatusAccepted: nat := 202
  const StatusBadRequest: nat := 400
  const StatusNotFound: nat := 404
  const StatusInternalServerError: nat := 500

  /** A handler's answer: a status code with a body, or a status code with a message. */
  datatype Reply<T> = Reply(status: nat, body: T) | Refusal(status: nat, message: string)

  const NotMondayMessage: string := "period_begin_date must be a Monday"
  const ScheduleNotFoundMessage: string := "Schedule not found"
  /** The `Display` text of a send error: the receiving half of the queue is gone. */
  const ChannelClosedMessage: string := "channel closed"

  datatype CreateScheduleRequest = CreateScheduleRequest(staffGroupId: Uuid, periodBeginDate: Date)

  /** The body of the 202 answer: the new job's id and status. */
  datatype ScheduleJobSerialize = ScheduleJobSerialize(scheduleId: Uuid, status: JobStatus)

  datatype ScheduleStatusSerialize = ScheduleStatusSerialize(
    scheduleId: Uuid,
    staffGroupId: Uuid,
    periodBeginDate: Date,
    status: JobStatus,
    errorMessage: Option<string>,
    createdAt: Timestamp,
    updatedAt: Timestamp,
    completedAt: Option<Timestamp>)

  datatype ScheduleResultSerialize = ScheduleResultSerialize(
    scheduleId: Uuid,
    periodBeginDate: Date,
    staffGroupId: Uuid,
    assignments: seq<ShiftAssignmentResponse>)

  /** The sending half of the job queue. Sending fails once the receiving half is gone. */
  class JobQueue {
    var sent: seq<ScheduleJobRequest>
    var receiverAlive: bool

    constructor ()
      ensures sent == [] && receiverAlive
    {
      sent := [];
      receiverAlive := true;
    }

    method Send(request: ScheduleJobRequest) returns (delivered: bool)
      modifies this
      ensures delivered == old(receiverAlive) && receiverAlive == old(receiverAlive)
      ensures sent == if delivered then old(sent) + [request] else old(sent)
    {
      delivered := receiverAlive;
      if delivered {
        sent := sent + [request];
      }
    }
  }

  /** What the handlers share: the two stores and the queue to the job processor. */
  class AppState {
    const jobRepo: JobStore
    const assignmentRepo: AssignmentStore
    const scheduleSender: JobQueue

    constructor (jobRepo: JobStore, assignmentRepo: AssignmentStore, scheduleSender: JobQueue)
      ensures this.jobRepo == jobRepo && this.assignmentRepo == assignmentRepo && this.scheduleSender == scheduleSender
    {
      this.jobRepo := jobRepo;
      this.assignmentRepo := assignmentRepo;
      this.scheduleSender := scheduleSender;
    }
  }

  /** A freshly submitted job: Pending, without error, not completed, and about the request's group and date. */
  function NewJob(jobId: Uuid, request: CreateScheduleRequest, now: Timestamp): (job: ScheduleJob)
    ensures job.id == jobId && job.staffGroupId == request.staffGroupId && job.periodBeginDate == request.periodBeginDate
    ensures job.status == Pending && job.errorMessage == None && job.completedAt == None
    ensures job.createdAt == now && job.updatedAt == now
  {
    ScheduleJob(jobId, request.staffGroupId, request.periodBeginDate, Pending, None, now, now, None)
  }

  /**
   * Submits a job for the request, under the fresh id `jobId`. A start that
   * is not a Monday is refused before anything is written; otherwise the job
   * is stored Pending and its request is queued for processing.
   */
  method SubmitSchedule(state: AppState, request: CreateScheduleRequest, jobId: Uuid, now: Timestamp)
    returns (r: Reply<ScheduleJobSerialize>)
    modifies state.jobRepo, state.scheduleSender
    ensures !IsMonday(request.periodBeginDate) ==>
              r == Refusal(StatusBadRequest, NotMondayMessage) &&
              state.jobRepo.jobs == old(state.jobRepo.jobs) && state.scheduleSender.sent == old(state.scheduleSender.sent)
    ensures IsMonday(request.periodBeginDate) ==>
              state.jobRepo.jobs == old(state.jobRepo.jobs)[jobId := NewJob(jobId, request, now)]
    ensures IsMonday(request.periodBeginDate) && old(state.scheduleSender.receiverAlive) ==>
              r == Reply(StatusAccepted, ScheduleJobSerialize(jobId, Pending)) &&
              state.scheduleSender.sent ==
                old(state.scheduleSender.sent) + [ScheduleJobRequest(jobId, request.staffGroupId, request.periodBeginDate)]
    ensures IsMonday(request.periodBeginDate) && !old(state.scheduleSender.receiverAlive) ==>
              r == Refusal(StatusInternalServerError, "Failed to submit job: " + ChannelClosedMessage) &&
              state.scheduleSender.sent == old(state.scheduleSender.sent)
  {
    if !IsMonday(request.periodBeginDate) {
      return Refusal(StatusBadRequest, NotMondayMessage);
    }
    var job := NewJob(jobId, request, now);
    var created := state.jobRepo.Create(job);
    var createdJob := created.value;
    var scheduleRequest := ScheduleJobRequest(createdJob.id, createdJob.staffGroupId, createdJob.periodBeginDate);
    var delivered := state.scheduleSender.Send(scheduleRequest);
    if !delivered {
      return Refusal(StatusInternalServerError, "Failed to submit job: " + ChannelClosedMessage);
    }
    r := Reply(StatusAccepted, ScheduleJobSerialize(createdJob.id, createdJob.status));
  }

  function StatusView(job: ScheduleJob): (view: ScheduleStatusSerialize)
    ensures view.scheduleId == job.id && view.staffGroupId == job.staffGroupId
    ensures view.periodBeginDate == job.periodBeginDate && view.status == job.status
    ensures view.errorMessage == job.errorMessage && view.completedAt == job.completedAt
    ensures view.createdAt == job.createdAt && view.updatedAt == job.updatedAt
  {
    ScheduleStatusSerialize(job.id, job.staffGroupId, job.periodBeginDate, job.status, job.errorMessage,
                            job.createdAt, job.updatedAt, job.completedAt)
  }

  /** 404 for an unknown job; otherwise every field of the job. */
  function GetScheduleStatus(state: AppState, scheduleId: Uuid): (r: Reply<ScheduleStatusSerialize>)
    reads state.jobRepo
    ensures r.Reply? <==> scheduleId in state.jobRepo.jobs
    ensures r.Refusal? ==> r == Refusal(StatusNotFound, ScheduleNotFoundMessage)
    ensures r.Reply? ==> r.status == StatusOk && r.body == StatusView(state.jobRepo.jobs[scheduleId])
  {
    match state.jobRepo.FindById(scheduleId)
    case None => Refusal(StatusNotFound, ScheduleNotFoundMessage)
    case Some(job) => Reply(StatusOk, StatusView(job))
  }

  /** The derived `Debug` name of a job status. */
  function StatusName(status: JobStatus): string
  {
    match status
    case Pending => "Pending"
    case Processing => "Processing"
    case Completed => "Completed"
    case Failed => "Failed"
  }

  /** The API view of each assignment, in the same order. */
  function Responses(rs: seq<ShiftAssignment>): (views: seq<ShiftAssignmentResponse>)
    ensures |views| == |rs|
    ensures forall i :: 0 <= i < |rs| ==>
              views[i].staffId == rs[i].staffId && views[i].date == rs[i].date && views[i].shift == rs[i].shift
  {
    if rs == [] then [] else Responses(rs[..|rs| - 1]) + [ToResponse(rs[|rs| - 1])]
  }

  /**
   * The result of a job: 404 for an unknown job, 400 naming the status for
   * a job that is not Completed, otherwise the job's stored assignments.
   */
  function GetScheduleResult(state: AppState, scheduleId: Uuid): (r: Reply<ScheduleResultSerialize>)
    reads state.jobRepo, state.assignmentRepo
    ensures r.Reply? <==> scheduleId in state.jobRepo.jobs && state.jobRepo.jobs[scheduleId].status == Completed
    ensures scheduleId !in state.jobRepo.jobs ==> r == Refusal(StatusNotFound, ScheduleNotFoundMessage)
    ensures scheduleId in state.jobRepo.jobs && state.jobRepo.jobs[scheduleId].status != Completed ==>
              r == Refusal(StatusBadRequest,
                           "Schedule is not completed yet. Current status: " + StatusName(state.jobRepo.jobs[scheduleId].status))
    ensures r.Reply? ==>
              var job := state.jobRepo.jobs[scheduleId];
              r.status == StatusOk && r.body.scheduleId == job.id && r.body.periodBeginDate == job.periodBeginDate &&
              r.body.staffGroupId == job.staffGroupId &&
              r.body.assignments == Responses(ForJob(state.assignmentRepo.assignments, scheduleId))
  {
    match state.jobRepo.FindById(scheduleId)
    case None => Refusal(StatusNotFound, ScheduleNotFoundMessage)
    case Some(job) =>
      if job.status != Completed then
        Refusal(StatusBadRequest, "Schedule is not completed yet. Current status: " + StatusName(job.status))
      else
        var assignments := state.assignmentRepo.FindByJobId(scheduleId);
        Reply(StatusOk, ScheduleResultSerialize(job.id, job.periodBeginDate, job.staffGroupId, Responses(assignments)))
  }

  /**
   * A job processed to completion serves exactly the batch its run saved,
   * provided the store held nothing of that job before.
   */
  lemma CompletedJobServesItsBatch(state: AppState, scheduleId: Uuid, job: ScheduleJob, now: Timestamp,
                                   stored: seq<ShiftAssignment>, batch: seq<ShiftAssignment>)
    requires scheduleId in state.jobRepo.jobs && state.jobRepo.jobs[scheduleId] == Processed(job, None, now)
    requires job.id == scheduleId
    requires state.assignmentRepo.assignments == stored + batch
    requires forall i :: 0 <= i < |stored| ==> stored[i].scheduleJobId != scheduleId
    requires forall i :: 0 <= i < |batch| ==> batch[i].scheduleJobId == scheduleId
    ensures GetScheduleResult(state, scheduleId) ==
              Reply(StatusOk, ScheduleResultSerialize(scheduleId, job.periodBeginDate, job.staffGroupId, Responses(batch)))
  {
    SavedBatchReadBack(stored, batch, scheduleId);
  }
}
