/**
 * The in-memory schedule-job and shift-assignment stores the scheduling
 * service's tests run against, and the fixtures that fill them.
 */
module JobStores {
  import opened Types
  import opened Entities
  import opened Text

  /** How a job-store write names a missing job in its `NotFound` message. */
  const JobLabel: string := "Job "

  /** The jobs of a list inserted one after the other into an empty map. */
  function Indexed(jobList: seq<ScheduleJob>): (m: map<Uuid, ScheduleJob>)
  {
    if jobList == [] then map[]
    else
      var last := jobList[|jobList| - 1];
      Indexed(jobList[..|jobList| - 1])[last.id := last]
  }

  /** A job id is stored exactly when some job of the list carries it. */
  lemma {:induction false} IndexedKeys(jobList: seq<ScheduleJob>)
    ensures Indexed(jobList).Keys == set j | 0 <= j < |jobList| :: jobList[j].id
  {
    if jobList != [] {
      var init := jobList[..|jobList| - 1];
      IndexedKeys(init);
      assert forall j :: 0 <= j < |init| ==> init[j] == jobList[j];
    }
  }

  /** Of several jobs with the same id, the last one in the list is the one stored. */
  lemma {:induction false} IndexedLastWins(jobList: seq<ScheduleJob>, j: nat)
    requires j < |jobList|
    requires forall k :: j < k < |jobList| ==> jobList[k].id != jobList[j].id
    ensures jobList[j].id in Indexed(jobList) && Indexed(jobList)[jobList[j].id] == jobList[j]
  {
    if j < |jobList| - 1 {
      var init := jobList[..|jobList| - 1];
      assert init[j] == jobList[j];
      IndexedLastWins(init, j);
    }
  }

  class JobStore {
    var jobs: map<Uuid, ScheduleJob>

    constructor ()
      ensures jobs == map[]
    {
      jobs := map[];
    }

    /** `with_jobs`: the jobs are inserted in list order. */
    constructor WithJobs(jobList: seq<ScheduleJob>)
      ensures jobs == Indexed(jobList)
    {
      jobs := map[];
      new;
      for i := 0 to |jobList|
        invariant jobs == Indexed(jobList[..i])
      {
        assert jobList[..i + 1][..i] == jobList[..i];
        jobs := jobs[jobList[i].id := jobList[i]];
      }
      assert jobList[..|jobList|] == jobList;
    }

    /** Inserts the job, replacing any job with the same id, and hands it back. */
    method Create(job: ScheduleJob) returns (r: Result<ScheduleJob>)
      modifies this
      ensures r == Ok(job)
      ensures jobs == old(jobs)[job.id := job]
    {
      jobs := jobs[job.id := job];
      r := Ok(job);
    }

    function FindById(id: Uuid): (r: Option<ScheduleJob>)
      reads this
      ensures r.Some? <==> id in jobs
      ensures r.Some? ==> r.value == jobs[id]
    {
      if id in jobs then Some(jobs[id]) else None
    }

    /** Sets the status and the error message (possibly clearing it) of a stored job. */
    method UpdateStatus(id: Uuid, status: JobStatus, errorMessage: Option<string>, now: Timestamp) returns (r: Outcome)
      modifies this
      ensures id in old(jobs) ==> r == Pass && jobs == old(jobs)[id := WithStatus(old(jobs)[id], status, errorMessage, now)]
      ensures id !in old(jobs) ==> r == Fail(IdNotFound(JobLabel, id)) && jobs == old(jobs)
    {
      if id in jobs {
        jobs := jobs[id := WithStatus(jobs[id], status, errorMessage, now)];
        r := Pass;
      } else {
        r := Fail(IdNotFound(JobLabel, id));
      }
    }

    /** Marks a stored job Completed and stamps its completion time; the error message stays. */
    method MarkCompleted(id: Uuid, now: Timestamp) returns (r: Outcome)
      modifies this
      ensures id in old(jobs) ==> r == Pass && jobs == old(jobs)[id := Completion(old(jobs)[id], now)]
      ensures id !in old(jobs) ==> r == Fail(IdNotFound(JobLabel, id)) && jobs == old(jobs)
    {
      if id in jobs {
        jobs := jobs[id := Completion(jobs[id], now)];
        r := Pass;
      } else {
        r := Fail(IdNotFound(JobLabel, id));
      }
    }

    /** Marks a stored job Failed with the given message; the completion time stays. */
    method MarkFailed(id: Uuid, errorMessage: string, now: Timestamp) returns (r: Outcome)
      modifies this
      ensures id in old(jobs) ==> r == Pass && jobs == old(jobs)[id := WithStatus(old(jobs)[id], Failed, Some(errorMessage), now)]
      ensures id !in old(jobs) ==> r == Fail(IdNotFound(JobLabel, id)) && jobs == old(jobs)
    {
      if id in jobs {
        jobs := jobs[id := WithStatus(jobs[id], Failed, Some(errorMessage), now)];
        r := Pass;
      } else {
        r := Fail(IdNotFound(JobLabel, id));
      }
    }
  }

  /** The fields of a job that no store write changes. */
  predicate SameRequest(a: ScheduleJob, b: ScheduleJob)
  {
    a.id == b.id && a.staffGroupId == b.staffGroupId && a.periodBeginDate == b.periodBeginDate &&
    a.createdAt == b.createdAt
  }

  /** A job after `update_status` or `mark_failed`. */
  function WithStatus(job: ScheduleJob, status: JobStatus, errorMessage: Option<string>, now: Timestamp): (j: ScheduleJob)
    ensures SameRequest(j, job) && j.completedAt == job.completedAt
    ensures j.status == status && j.errorMessage == errorMessage && j.updatedAt == now
  {
    job.(status := status, errorMessage := errorMessage, updatedAt := now)
  }

  /** A job after `mark_completed`. */
  function Completion(job: ScheduleJob, now: Timestamp): (j: ScheduleJob)
    ensures SameRequest(j, job) && j.errorMessage == job.errorMessage
    ensures j.status == Completed && j.completedAt == Some(now) && j.updatedAt == now
  {
    job.(status := Completed, completedAt := Some(now), updatedAt := now)
  }

  /** Of a list, the assignments a given job produced, in list order. */
  function ForJob(rs: seq<ShiftAssignment>, jobId: Uuid): (r: seq<ShiftAssignment>)
    ensures |r| <= |rs|
  {
    if rs == [] then []
    else
      var init, last := rs[..|rs| - 1], rs[|rs| - 1];
      ForJob(init, jobId) + (if last.scheduleJobId == jobId then [last] else [])
  }

  /** `ForJob` keeps exactly the assignments carrying the job id. */
  lemma {:induction false} ForJobMembers(rs: seq<ShiftAssignment>, jobId: Uuid)
    ensures forall a :: a in ForJob(rs, jobId) <==> a in rs && a.scheduleJobId == jobId
  {
    if rs != [] {
      var init := rs[..|rs| - 1];
      ForJobMembers(init, jobId);
      assert rs == init + [rs[|rs| - 1]];
    }
  }

  /** Filtering a concatenation filters each part and keeps their order. */
  lemma {:induction false} ForJobAppend(rs: seq<ShiftAssignment>, more: seq<ShiftAssignment>, jobId: Uuid)
    ensures ForJob(rs + more, jobId) == ForJob(rs, jobId) + ForJob(more, jobId)
    decreases |more|
  {
    if more != [] {
      var init := more[..|more| - 1];
      assert (rs + more)[..|rs + more| - 1] == rs + init;
      assert (rs + more)[|rs + more| - 1] == more[|more| - 1];
      ForJobAppend(rs, init, jobId);
    } else {
      assert rs + more == rs;
    }
  }

  /** A list that belongs to one job is all kept, in order. */
  lemma {:induction false} ForJobOfOneJob(rs: seq<ShiftAssignment>, jobId: Uuid)
    requires forall i :: 0 <= i < |rs| ==> rs[i].scheduleJobId == jobId
    ensures ForJob(rs, jobId) == rs
  {
    if rs != [] {
      ForJobOfOneJob(rs[..|rs| - 1], jobId);
    }
  }

  /** A list holding nothing of the job keeps nothing. */
  lemma {:induction false} ForJobOfOtherJobs(rs: seq<ShiftAssignment>, jobId: Uuid)
    requires forall i :: 0 <= i < |rs| ==> rs[i].scheduleJobId != jobId
    ensures ForJob(rs, jobId) == []
  {
    if rs != [] {
      ForJobOfOtherJobs(rs[..|rs| - 1], jobId);
    }
  }

  class AssignmentStore {
    var assignments: seq<ShiftAssignment>

    constructor ()
      ensures assignments == []
    {
      assignments := [];
    }

    constructor WithAssignments(assignmentList: seq<ShiftAssignment>)
      ensures assignments == assignmentList
    {
      assignments := assignmentList;
    }

    /** Appends the batch, in order, after what is stored. */
    method CreateBatch(batch: seq<ShiftAssignment>) returns (r: Outcome)
      modifies this
      ensures r == Pass && assignments == old(assignments) + batch
    {
      assignments := assignments + batch;
      r := Pass;
    }

    /** The stored assignments of one job, in the order they were stored. */
    function FindByJobId(jobId: Uuid): (r: seq<ShiftAssignment>)
      reads this
      ensures forall a :: a in r <==> a in assignments && a.scheduleJobId == jobId
      ensures forall i :: 0 <= i < |r| ==> r[i].scheduleJobId == jobId
    {
      ForJobMembers(assignments, jobId);
      ForJob(assignments, jobId)
    }
  }

  /** A batch saved for a job the store held nothing of is read back exactly. */
  lemma SavedBatchReadBack(stored: seq<ShiftAssignment>, batch: seq<ShiftAssignment>, jobId: Uuid)
    requires forall i :: 0 <= i < |stored| ==> stored[i].scheduleJobId != jobId
    requires forall i :: 0 <= i < |batch| ==> batch[i].scheduleJobId == jobId
    ensures ForJob(stored + batch, jobId) == batch
  {
    ForJobAppend(stored, batch, jobId);
    ForJobOfOtherJobs(stored, jobId);
    ForJobOfOneJob(batch, jobId);
  }

  // ---------------------------------------------------------------- fixtures

  /** A job as `create_sample_job` builds it: no error and not completed. */
  function SampleJob(id: Uuid, staffGroupId: Uuid, periodBeginDate: Date, status: JobStatus, now: Timestamp): (job: ScheduleJob)
    ensures job.id == id && job.staffGroupId == staffGroupId && job.periodBeginDate == periodBeginDate
    ensures job.status == status && job.errorMessage == None && job.completedAt == None
    ensures job.createdAt == now && job.updatedAt == now
  {
    ScheduleJob(id, staffGroupId, periodBeginDate, status, None, now, now, None)
  }

  /** A job as `create_completed_job` builds it: Completed, without error, completed at creation. */
  function CompletedJob(id: Uuid, staffGroupId: Uuid, periodBeginDate: Date, now: Timestamp): (job: ScheduleJob)
    ensures job.id == id && job.staffGroupId == staffGroupId && job.periodBeginDate == periodBeginDate
    ensures job.status == Completed && job.errorMessage == None && job.completedAt == Some(now)
    ensures job.createdAt == now && job.updatedAt == now
  {
    ScheduleJob(id, staffGroupId, periodBeginDate, Completed, None, now, now, Some(now))
  }

  /** The shift cycle of the sample assignments. */
  const SampleShifts: seq<Shift> := [Morning, Evening, DayOff]

  /**
   * `create_sample_assignments`: seven consecutive days for each staff
   * member, staff by staff, with the shift cycling by staff index plus day.
   */
  method CreateSampleAssignments(jobId: Uuid, staffIds: seq<Uuid>, startDate: Date) returns (assignments: seq<ShiftAssignment>)
    ensures |assignments| == 7 * |staffIds|
    ensures forall k :: 0 <= k < |assignments| ==>
              assignments[k] == ShiftAssignment(jobId, staffIds[k / 7], startDate + k % 7, SampleShifts[(k / 7 + k % 7) % 3])
  {
    assignments := [];
    for staffIndex := 0 to |staffIds|
      invariant |assignments| == 7 * staffIndex
      invariant forall k :: 0 <= k < |assignments| ==>
                  assignments[k] == ShiftAssignment(jobId, staffIds[k / 7], startDate + k % 7, SampleShifts[(k / 7 + k % 7) % 3])
    {
      var staffId := staffIds[staffIndex];
      for day := 0 to 7
        invariant |assignments| == 7 * staffIndex + day
        invariant forall k :: 0 <= k < |assignments| ==>
                    assignments[k] == ShiftAssignment(jobId, staffIds[k / 7], startDate + k % 7, SampleShifts[(k / 7 + k % 7) % 3])
      {
        var date := startDate + day;
        var shift := SampleShifts[(staffIndex + day) % 3];
        assert (7 * staffIndex + day) / 7 == staffIndex && (7 * staffIndex + day) % 7 == day;
        assignments := assignments + [ShiftAssignment(jobId, staffId, date, shift)];
      }
    }
  }

  /** Every sample assignment belongs to the job, so the store hands all of them back. */
  lemma SampleAssignmentsOfOneJob(jobId: Uuid, staffIds: seq<Uuid>, startDate: Date, assignments: seq<ShiftAssignment>)
    requires |assignments| == 7 * |staffIds|
    requires forall k :: 0 <= k < |assignments| ==>
               assignments[k] == ShiftAssignment(jobId, staffIds[k / 7], startDate + k % 7, SampleShifts[(k / 7 + k % 7) % 3])
    ensures ForJob(assignments, jobId) == assignments
  {
    ForJobOfOneJob(assignments, jobId);
  }
}
