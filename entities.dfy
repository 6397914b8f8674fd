/**
 * The records the scheduling service stores and returns: schedule jobs and
 * the shift assignments a finished job produced.
 */
module Entities {
  import opened Types

  datatype ScheduleJob = ScheduleJob(
    id: Uuid,
    staffGroupId: Uuid,
    periodBeginDate: Date,
    status: JobStatus,
    errorMessage: Option<string>,
    createdAt: Timestamp,
    updatedAt: Timestamp,
    completedAt: Option<Timestamp>)

  /** One staff member's shift on one date, produced by one schedule job. */
  datatype ShiftAssignment = ShiftAssignment(
    scheduleJobId: Uuid,
    staffId: Uuid,
    date: Date,
    shift: Shift)

  /** The API view of an assignment: who works what, when. */
  datatype ShiftAssignmentResponse = ShiftAssignmentResponse(staffId: Uuid, date: Date, shift: Shift)

  function ToResponse(a: ShiftAssignment): ShiftAssignmentResponse
  {
    ShiftAssignmentResponse(a.staffId, a.date, a.shift)
  }
}
