/** Job records, the transition table and the operations of the job store and manager. */
module Jobs {
  import opened Common

  datatype Status = Created | Queued | Running | Succeeded | Failed | Cancelled | Paused

  /** The snapshot of the turn a session job works on. */
  datatype Turn = Turn(open: bool, request: string)

  datatype Job = Job(
    status: Status,
    cancelRequested: bool,
    retries: nat,
    maxRetries: nat,
    error: string,
    turn: Option<Turn>,
    session: string,
    updatedAt: int,
    finishedAt: Option<int>)

  /** The transition table, with the direct start of created jobs. A status may always be written again. */
  predicate Allowed(from: Status, to: Status) {
    from == to ||
    match from
    case Created => to == Queued || to == Cancelled || to == Running
    case Queued => to == Running || to == Cancelled || to == Failed
    case Running => to == Succeeded || to == Failed || to == Cancelled || to == Paused
    case Paused => to == Running || to == Cancelled || to == Failed
    case Failed => to == Queued || to == Running || to == Cancelled
    case Succeeded => to == Running
    case Cancelled => to == Running
  }

  /** claim_job_for_execution: only a queued job is claimed. */
  function Claim(job: Job, now: int): Option<Job> {
    if job.status != Queued then None
    else Some(job.(status := Running, error := "", cancelRequested := false, updatedAt := now, finishedAt := None))
  }

  /** fence_reclaimed_running_job: a redelivered job that still runs is failed. */
  function Fence(job: Job, attempt: nat, now: int): Option<Job> {
    if attempt <= 1 || job.status != Running then None
    else Some(job.(status := Failed, error := "worker_lease_expired", updatedAt := now, finishedAt := Some(now),
                   turn := Some(Turn(false, if job.turn.Some? then job.turn.value.request else ""))))
  }

  /** request_job_cancellation: marks the running turn, once, and only the expected one. */
  function RequestCancel(job: Job, expected: string, now: int): Option<Job> {
    var actual := if job.turn.Some? then job.turn.value.request else "";
    if job.status != Running || (expected != "" && actual != expected) || job.cancelRequested then None
    else Some(job.(cancelRequested := true, updatedAt := now))
  }

  /** reconcile_running_jobs: a job left running by an earlier backend ends, cancelled if that was requested. */
  function Reconcile(job: Job, startedBefore: int, finishedAt: int): Option<Job> {
    if job.status != Running || job.updatedAt >= startedBefore then None
    else
      var turn := if job.turn.Some? && job.turn.value.open then Some(job.turn.value.(open := false)) else job.turn;
      Some(job.(status := if job.cancelRequested then Cancelled else Failed,
                error := if job.cancelRequested then "" else "backend_restart_during_job",
                turn := turn, updatedAt := finishedAt, finishedAt := Some(finishedAt)))
  }

  /** What a restart writes into a job, and into which. */
  ghost predicate Restarted(job: Job, startedBefore: int, finishedAt: int, after: Job) {
    if job.status != Running || job.updatedAt >= startedBefore then after == job
    else
      && after.status == (if job.cancelRequested then Cancelled else Failed) && after.cancelRequested == job.cancelRequested
      && after.error == (if job.cancelRequested then "" else "backend_restart_during_job")
      && after.finishedAt == Some(finishedAt) && after.updatedAt == finishedAt
      && after.session == job.session && after.retries == job.retries && after.maxRetries == job.maxRetries
      && (after.turn.Some? <==> job.turn.Some?)
      && (job.turn.Some? ==> !after.turn.value.open && after.turn.value.request == job.turn.value.request)
  }

  lemma ReconcileEnds(job: Job, startedBefore: int, finishedAt: int)
    ensures
      match Reconcile(job, startedBefore, finishedAt)
      case Some(j) => j.status != Running
      case None => job.status == Running ==> job.updatedAt >= startedBefore
  {
  }

  lemma ReconcileRestarts(job: Job, startedBefore: int, finishedAt: int)
    ensures Restarted(job, startedBefore, finishedAt,
      match Reconcile(job, startedBefore, finishedAt) case Some(j) => j case None => job)
  {
  }

  /** retry_job without force. */
  function Retry(job: Job, now: int): Option<Job> {
    if !Allowed(job.status, Queued) || job.retries >= job.maxRetries then None
    else Some(job.(status := Queued, retries := job.retries + 1, error := "", cancelRequested := false, updatedAt := now))
  }

  function MarkRunning(job: Job, now: int): Option<Job> {
    if !Allowed(job.status, Running) then None
    else Some(job.(status := Running, error := "", cancelRequested := false, updatedAt := now, finishedAt := None))
  }

  function MarkSucceeded(job: Job, now: int): Option<Job> {
    if !Allowed(job.status, Succeeded) then None else Some(job.(status := Succeeded, updatedAt := now, finishedAt := Some(now)))
  }

  function MarkFailed(job: Job, error: string, now: int): Option<Job> {
    if !Allowed(job.status, Failed) then None
    else Some(job.(status := Failed, error := if |error| <= 500 then error else error[..500], updatedAt := now, finishedAt := Some(now)))
  }

  function MarkCancelled(job: Job, now: int): Option<Job> {
    if !Allowed(job.status, Cancelled) then None
    else Some(job.(status := Cancelled, cancelRequested := true, updatedAt := now, finishedAt := Some(now)))
  }

  function MarkQueued(job: Job, now: int): Option<Job> {
    if !Allowed(job.status, Queued) then None else Some(job.(status := Queued, updatedAt := now))
  }

  /** Which jobs each mark accepts, and all it writes into them. */
  lemma MarksDecide(job: Job, error: string, now: int)
    ensures MarkRunning(job, now) ==
      Some(Job(Running, false, job.retries, job.maxRetries, "", job.turn, job.session, now, None))
    ensures MarkSucceeded(job, now) ==
      if job.status !in {Running, Succeeded} then None
      else Some(Job(Succeeded, job.cancelRequested, job.retries, job.maxRetries, job.error, job.turn, job.session, now, Some(now)))
    ensures MarkCancelled(job, now) ==
      if job.status == Succeeded then None
      else Some(Job(Cancelled, true, job.retries, job.maxRetries, job.error, job.turn, job.session, now, Some(now)))
    ensures MarkFailed(job, error, now).Some? <==> job.status !in {Created, Succeeded, Cancelled}
    ensures
      match MarkFailed(job, error, now)
      case None => true
      case Some(j) =>
        && j == Job(Failed, job.cancelRequested, job.retries, job.maxRetries, j.error, job.turn, job.session, now, Some(now))
        && j.error <= error && (|error| <= 500 ==> j.error == error) && (|error| > 500 ==> |j.error| == 500)
    ensures Allowed(job.status, Paused) <==> job.status in {Running, Paused}
  {
  }

  /** A job is queued again only new or failed, or while it is queued; a retry counts, up to its limit, and clears the job's marks. */
  lemma QueueingDecides(job: Job, now: int)
    ensures MarkQueued(job, now) ==
      if job.status !in {Created, Failed, Queued} then None
      else Some(Job(Queued, job.cancelRequested, job.retries, job.maxRetries, job.error, job.turn, job.session, now, job.finishedAt))
    ensures Retry(job, now) ==
      if job.status !in {Created, Failed, Queued} || job.maxRetries <= job.retries then None
      else Some(Job(Queued, false, job.retries + 1, job.maxRetries, "", job.turn, job.session, now, job.finishedAt))
  {
  }

  /** What an operation writes back: the changed record, or nothing when it does not apply or the job is missing. */
  function Written(jobs: map<string, Job>, id: string, change: Job -> Option<Job>): map<string, Job> {
    if id in jobs && change(jobs[id]).Some? then jobs[id := change(jobs[id]).value] else jobs
  }

  /** The job files of a workspace. Each method is one locked read-modify-write. */
  class JobStore {
    var jobs: map<string, Job>

    constructor ()
      ensures jobs == map[]
    {
      jobs := map[];
    }

    method ClaimForExecution(id: string, now: int) returns (claimed: Option<Job>)
      modifies this
      ensures jobs == Written(old(jobs), id, j => Claim(j, now))
      ensures claimed.Some? <==> id in old(jobs) && old(jobs)[id].status == Queued
      ensures claimed.Some? ==>
        && jobs == old(jobs)[id := claimed.value]
        && claimed.value == old(jobs)[id].(status := Running, error := "", cancelRequested := false, updatedAt := now, finishedAt := None)
      ensures claimed.None? ==> jobs == old(jobs)
    {
      if id !in jobs || jobs[id].status != Queued { return None; }
      var rec := jobs[id];
      rec := rec.(status := Running);
      rec := rec.(finishedAt := None, error := "", cancelRequested := false);
      rec := rec.(updatedAt := now);
      jobs := jobs[id := rec];
      claimed := Some(rec);
    }

    method FenceReclaimed(id: string, attempt: nat, now: int) returns (fenced: Option<Job>)
      modifies this
      ensures jobs == Written(old(jobs), id, j => Fence(j, attempt, now))
      ensures fenced.Some? <==> attempt > 1 && id in old(jobs) && old(jobs)[id].status == Running
      ensures fenced.Some? ==>
        && jobs == old(jobs)[id := fenced.value]
        && fenced.value.turn.Some? && !fenced.value.turn.value.open
        && fenced.value.turn.value.request == (if old(jobs)[id].turn.Some? then old(jobs)[id].turn.value.request else "")
        && fenced.value == old(jobs)[id].(status := Failed, error := "worker_lease_expired", updatedAt := now, finishedAt := Some(now),
                                          turn := fenced.value.turn)
      ensures fenced.None? ==> jobs == old(jobs)
    {
      if attempt <= 1 { return None; }
      if id !in jobs || jobs[id].status != Running { return None; }
      var rec := jobs[id];
      var turn := if rec.turn.Some? then rec.turn.value else Turn(false, "");
      turn := turn.(open := false);
      rec := rec.(status := Failed, error := "worker_lease_expired", turn := Some(turn), updatedAt := now, finishedAt := Some(now));
      jobs := jobs[id := rec];
      fenced := Some(rec);
    }

    method RequestCancellation(id: string, expected: string, now: int) returns (applied: bool)
      modifies this
      ensures jobs == Written(old(jobs), id, j => RequestCancel(j, expected, now))
      ensures applied <==>
        && id in old(jobs) && old(jobs)[id].status == Running && !old(jobs)[id].cancelRequested
        && (expected == "" || (old(jobs)[id].turn.Some? && old(jobs)[id].turn.value.request == expected))
      ensures jobs == if applied then old(jobs)[id := old(jobs)[id].(cancelRequested := true, updatedAt := now)] else old(jobs)
    {
      if id !in jobs || jobs[id].status != Running { return false; }
      var rec := jobs[id];
      var actual := if rec.turn.Some? then rec.turn.value.request else "";
      if expected != "" && actual != expected { return false; }
      if rec.cancelRequested { return false; }
      jobs := jobs[id := rec.(cancelRequested := true, updatedAt := now)];
      applied := true;
    }

    /** Ends every job that was left running. */
    method ReconcileRunning(startedBefore: int, finishedAt: int) returns (count: nat)
      modifies this
      ensures jobs.Keys == old(jobs).Keys
      ensures forall id :: id in jobs ==>
        jobs[id] == (match Reconcile(old(jobs)[id], startedBefore, finishedAt) case Some(j) => j case None => old(jobs)[id])
      ensures forall id :: id in jobs ==> Restarted(old(jobs)[id], startedBefore, finishedAt, jobs[id])
      ensures forall id :: id in jobs && jobs[id].status == Running ==> jobs[id].updatedAt >= startedBefore
      ensures count == |set id | id in old(jobs) && Reconcile(old(jobs)[id], startedBefore, finishedAt).Some?|
    {
      hide Reconcile;
      count := 0;
      ghost var ended: set<string> := {};
      var left := jobs.Keys;
      while left != {}
        invariant jobs.Keys == old(jobs).Keys && left <= jobs.Keys
        invariant forall id :: id in left ==> jobs[id] == old(jobs)[id]
        invariant count == |ended| && ended !! left
        invariant forall id :: id in ended <==> id in jobs && id !in left && Reconcile(old(jobs)[id], startedBefore, finishedAt).Some?
        invariant forall id :: id in jobs && id !in left ==>
          jobs[id] == (match Reconcile(old(jobs)[id], startedBefore, finishedAt) case Some(j) => j case None => old(jobs)[id])
        decreases left
      {
        var id :| id in left;
        left := left - {id};
        var result := Reconcile(jobs[id], startedBefore, finishedAt);
        if result.Some? {
          jobs := jobs[id := result.value];
          count, ended := count + 1, ended + {id};
        }
      }
      forall id | id in jobs && jobs[id].status == Running ensures jobs[id].updatedAt >= startedBefore {
        ReconcileEnds(old(jobs)[id], startedBefore, finishedAt);
      }
      forall id | id in jobs ensures Restarted(old(jobs)[id], startedBefore, finishedAt, jobs[id]) {
        ReconcileRestarts(old(jobs)[id], startedBefore, finishedAt);
      }
      assert ended == set id | id in old(jobs) && Reconcile(old(jobs)[id], startedBefore, finishedAt).Some?;
    }
  }
}
