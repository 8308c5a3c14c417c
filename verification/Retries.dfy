/** How often a job can be retried, and how executions end. */
module Retries {
  import opened Common
  import opened Jobs
  import opened JobProtocol
  import Q = JobQueue

  ghost function RetriesIn(h: seq<Move>): set<nat> { set i: nat | i < |h| && h[i].cause.Retried? }

  /** The job made as `made` counts exactly the retries of its history and never exceeds its limit by one. */
  ghost predicate Budgeted(s: State, k: Key, made: Job) {
    && k in s.history
    && (k in s.jobs ==>
          && s.jobs[k].retries == made.retries + |RetriesIn(s.history[k])|
          && s.jobs[k].maxRetries == made.maxRetries
          && (RetriesIn(s.history[k]) == {} || s.jobs[k].retries <= made.maxRetries))
  }

  lemma RetriesSnoc(h: seq<Move>, m: Move)
    ensures |RetriesIn(h + [m])| == |RetriesIn(h)| + if m.cause.Retried? then 1 else 0
    ensures m.cause.Retried? || RetriesIn(h + [m]) == RetriesIn(h)
  {
    assert RetriesIn(h + [m]) == RetriesIn(h) + if m.cause.Retried? then {|h|} else {};
  }

  /** Writing a job keeps the count if exactly a retry raises it, within the limit. */
  lemma WriteBudgeted(s: State, x: Key, job: Job, cause: Cause, k: Key, made: Job)
    requires Budgeted(s, k, made) && x in s.jobs
    requires job.maxRetries == s.jobs[x].maxRetries
    requires if cause.Retried? then job.retries == s.jobs[x].retries + 1 <= job.maxRetries else job.retries == s.jobs[x].retries
    ensures Budgeted(Write(s, x, job, cause), k, made)
  {
    if x == k { RetriesSnoc(s.history[k], Move(s.jobs[k].status, job.status, cause)); }
  }

  lemma OthersBudgeted(s: State, t: State, k: Key, made: Job)
    requires Budgeted(s, k, made) && k in t.history && t.history[k] == s.history[k] && (k in t.jobs ==> k in s.jobs)
    requires k in t.jobs ==> t.jobs[k].retries == s.jobs[k].retries && t.jobs[k].maxRetries == s.jobs[k].maxRetries
    ensures Budgeted(t, k, made)
  {
  }

  lemma ErrorBudgeted(s: State, w: nat, p: Q.Payload, now: int, k: Key, made: Job)
    requires Budgeted(s, k, made)
    ensures Budgeted(HandleError(s, w, p, now), k, made)
  {
    hide Budgeted, Allowed;
    var x := KeyOf(p);
    if x in s.jobs && MarkFailed(s.jobs[x], "", now).Some? {
      var t := Write(s, x, MarkFailed(s.jobs[x], "", now).value, Marked);
      WriteBudgeted(s, x, MarkFailed(s.jobs[x], "", now).value, Marked, k, made);
      SameJobs(t, HandleError(s, w, p, now), k, made);
    } else {
      SameJobs(s, HandleError(s, w, p, now), k, made);
    }
  }

  lemma SameJobs(s: State, t: State, k: Key, made: Job)
    requires Budgeted(s, k, made) && t.jobs == s.jobs && t.history == s.history
    ensures Budgeted(t, k, made)
  {
  }

  lemma BodyBudgeted(s: State, step: Step, k: Key, made: Job)
    requires Enabled(s, step) && Budgeted(s, k, made) && (step.BodyMarks? || step.BodyReturns? || step.BodyRaises?)
    ensures Budgeted(Apply(s, step), k, made)
  {
    hide Budgeted, HandleError, Allowed;
    var p := WorkerOf(s, step.w).p;
    var x, t := KeyOf(p), Apply(s, step);
    ErrorBudgeted(s, step.w, p, step.now, k, made);
    if t == HandleError(s, step.w, p, step.now) { return; }
    if t.jobs == s.jobs && t.history == s.history {
      SameJobs(s, t, k, made);
    } else {
      var job := if step.BodyMarks? then MarkTo(s.jobs[x], step.to, step.now).value else MarkSucceeded(s.jobs[x], step.now).value;
      WriteBudgeted(s, x, job, Marked, k, made);
      SameJobs(Write(s, x, job, Marked), t, k, made);
    }
  }

  /** A step that makes or deletes a job, or takes a request to cancel it. */
  lemma RecordBudgeted(s: State, step: Step, k: Key, made: Job)
    requires Enabled(s, step) && Budgeted(s, k, made) && (step.CreateJob? || step.DeleteJob? || step.CancelRunning?)
    ensures Budgeted(Apply(s, step), k, made)
  {
  }

  lemma ClientBudgeted(s: State, step: Step, k: Key, made: Job)
    requires Enabled(s, step) && Budgeted(s, k, made)
    requires step.EnqueueJob? || step.RetryJob? || step.CancelQueued? || step.Reactivate? || step.Finalize? || step.Restart?
    ensures Budgeted(Apply(s, step), k, made)
  {
    hide Budgeted, Allowed;
    var cause := match step
      case EnqueueJob(_, _, _) => Enqueued
      case RetryJob(_, _, _) => Retried
      case CancelQueued(_, _) => FromQueue
      case Reactivate(_, _) => Reactivated
      case Restart(_, _, _) => Reconciled
      case _ => Marked;
    var t := Write(s, step.k, Apply(s, step).jobs[step.k], cause);
    WriteBudgeted(s, step.k, Apply(s, step).jobs[step.k], cause, k, made);
    SameJobs(t, Apply(s, step), k, made);
  }

  lemma WorkerBudgeted(s: State, step: Step, k: Key, made: Job)
    requires Enabled(s, step) && Budgeted(s, k, made) && (step.TryFence? || step.StartJob?)
    ensures Budgeted(Apply(s, step), k, made)
  {
    hide Budgeted, Allowed;
    var x, t := KeyOf(WorkerOf(s, step.w).p), Apply(s, step);
    if t.jobs == s.jobs && t.history == s.history {
      SameJobs(s, t, k, made);
    } else {
      var cause := if step.TryFence? then Fenced(step.w) else Claimed(step.w);
      WriteBudgeted(s, x, t.jobs[x], cause, k, made);
      SameJobs(Write(s, x, t.jobs[x], cause), t, k, made);
    }
  }

  lemma StepBudgeted(s: State, step: Step, k: Key, made: Job)
    requires Enabled(s, step) && Budgeted(s, k, made)
    ensures Budgeted(Apply(s, step), k, made)
  {
    hide Budgeted, Write, Q.Ack, Q.Retry, Q.Heartbeat, Q.ReclaimOne, Q.Claimed;
    if step.BodyMarks? || step.BodyReturns? || step.BodyRaises? {
      BodyBudgeted(s, step, k, made);
    } else if step.CreateJob? || step.DeleteJob? || step.CancelRunning? {
      RecordBudgeted(s, step, k, made);
    } else if step.TryFence? || step.StartJob? {
      WorkerBudgeted(s, step, k, made);
    } else if step.ReclaimStale? || step.TakeDelivery? || step.Inspect? || step.Settle? || step.Beat? || step.Crash? {
      SameJobs(s, Apply(s, step), k, made);
    } else {
      ClientBudgeted(s, step, k, made);
    }
  }

  lemma {:induction false} RunBudgeted(s: State, steps: seq<Step>, k: Key, made: Job)
    requires Runs(s, steps) && Budgeted(s, k, made)
    ensures Budgeted(After(s, steps), k, made)
    decreases |steps|
  {
    hide Budgeted, Apply, Enabled;
    if steps != [] {
      StepBudgeted(s, steps[0], k, made);
      RunBudgeted(Apply(s, steps[0]), steps[1..], k, made);
    }
  }

  /** Only its creation brings a job into being. */
  lemma OnlyCreated(s: State, step: Step, k: Key)
    requires Enabled(s, step) && k !in s.jobs && !(step.CreateJob? && step.k == k)
    ensures k !in Apply(s, step).jobs
  {
    hide Allowed, MarkTo, MarkSucceeded, MarkFailed, Q.Ack, Q.Retry, Q.Heartbeat, Q.ReclaimOne, Q.Claimed;
  }

  lemma {:induction false} CreatedIn(s: State, steps: seq<Step>, k: Key) returns (i: nat)
    requires Runs(s, steps) && k !in s.jobs && k in After(s, steps).jobs
    ensures i < |steps| && steps[i].CreateJob? && steps[i].k == k && Budgeted(After(s, steps), k, steps[i].job)
    decreases |steps|
  {
    hide Apply, Enabled;
    if steps[0].CreateJob? && steps[0].k == k {
      i := 0;
      MadeBudgeted(s, steps[0]);
      RunBudgeted(Apply(s, steps[0]), steps[1..], k, steps[0].job);
    } else {
      OnlyCreated(s, steps[0], k);
      i := CreatedIn(Apply(s, steps[0]), steps[1..], k);
      i := i + 1;
    }
  }

  lemma MadeBudgeted(s: State, step: Step)
    requires Enabled(s, step) && step.CreateJob?
    ensures Budgeted(Apply(s, step), step.k, step.job)
  {
    assert RetriesIn([]) == {};
  }

  /**
   * In every run a job counts exactly the retries in its history, and there are never more of them than its limit
   * allowed when it was created, whatever failed, was cancelled, fenced, restarted or reactivated in between.
   */
  lemma RetriesWithinLimit(steps: seq<Step>, k: Key) returns (i: nat)
    requires Runs(START, steps) && k in After(START, steps).jobs
    ensures i < |steps| && steps[i].CreateJob? && steps[i].k == k
    ensures
      var s, made := After(START, steps), steps[i].job;
      && k in s.history
      && s.jobs[k].maxRetries == made.maxRetries
      && s.jobs[k].retries - made.retries == |set i: nat | i < |s.history[k]| && s.history[k][i].cause.Retried?|
      && s.jobs[k].retries <= if made.retries < made.maxRetries then made.maxRetries else made.retries
  {
    hide Apply, Enabled;
    i := CreatedIn(START, steps, k);
    var s := After(START, steps);
    assert RetriesIn(s.history[k]) == set i: nat | i < |s.history[k]| && s.history[k][i].cause.Retried?;
  }

  // ---- What the end of an execution does ----

  /** A body that returns: a failed or cancelled job is left alone, any other ends succeeded if it may, else failed if it may. */
  lemma ReturnDecides(s: State, w: nat, now: int)
    requires WorkerOf(s, w).Inside?
    ensures Enabled(s, BodyReturns(w, now))
    ensures
      var p, t := WorkerOf(s, w).p, Apply(s, BodyReturns(w, now));
      if KeyOf(p) in s.jobs && s.jobs[KeyOf(p)].status in {Running, Succeeded} then Ends(s, t, w, Succeeded)
      else if KeyOf(p) in s.jobs && s.jobs[KeyOf(p)].status in {Queued, Paused} then Ends(s, t, w, Failed)
      else t == s.(workers := s.workers[w := if KeyOf(p) in s.jobs && s.jobs[KeyOf(p)].status == Created then Retrying(p) else Acking(p)])
  {
  }

  /** One that raises: the job fails if it may; otherwise the delivery is retried, unless the job is gone. */
  lemma RaiseDecides(s: State, w: nat, now: int)
    requires WorkerOf(s, w).Inside?
    ensures Enabled(s, BodyRaises(w, now))
    ensures
      var p, t := WorkerOf(s, w).p, Apply(s, BodyRaises(w, now));
      if KeyOf(p) !in s.jobs then t == s.(workers := s.workers[w := Acking(p)])
      else if s.jobs[KeyOf(p)].status in {Created, Succeeded, Cancelled} then t == s.(workers := s.workers[w := Retrying(p)])
      else Ends(s, t, w, Failed)
  {
  }

  /** One that marks its job failed or cancelled stays inside, unless the mark is refused. */
  lemma MarkDecides(s: State, w: nat, to: Status, now: int)
    requires WorkerOf(s, w).Inside? && to in {Failed, Cancelled}
    ensures Enabled(s, BodyMarks(w, to, now))
    ensures
      var p, t := WorkerOf(s, w).p, Apply(s, BodyMarks(w, to, now));
      if KeyOf(p) !in s.jobs then t == s
      else if s.jobs[KeyOf(p)].status == Succeeded || (to == Failed && s.jobs[KeyOf(p)].status in {Created, Cancelled}) then
        t == s.(workers := s.workers[w := Retrying(p)])
      else
        && KeyOf(p) in t.jobs && t.jobs[KeyOf(p)].status == to && t.workers == s.workers && t.queue == s.queue
        && t.jobs == s.jobs[KeyOf(p) := t.jobs[KeyOf(p)]]
  {
  }

  /** A delivery whose job was seen goes on to start it; one whose job was missing, or was fenced, is acknowledged. */
  lemma FenceDecides(s: State, w: nat, now: int)
    requires WorkerOf(s, w).Inspected?
    ensures Enabled(s, TryFence(w, now))
    ensures
      var worker, t := WorkerOf(s, w), Apply(s, TryFence(w, now));
      var k := KeyOf(worker.p);
      if k in s.jobs && s.jobs[k].status == Running && worker.p.attempt > 1 then Ends(s, t, w, Failed)
      else t == s.(workers := s.workers[w := if worker.found then Ready(worker.p) else Acking(worker.p)])
  {
  }

  /** The worker acknowledges, its job has that status, and no other job, worker or delivery changes. */
  ghost predicate Ends(s: State, t: State, w: nat, status: Status) {
    && WorkerOf(s, w) != Idle
    && var p := WorkerOf(s, w).p;
    && KeyOf(p) in t.jobs && t.jobs[KeyOf(p)].status == status && t.jobs == s.jobs[KeyOf(p) := t.jobs[KeyOf(p)]]
    && t.workers == s.workers[w := Acking(p)] && t.queue == s.queue
  }
}
