/** The turns of one session on its job, which is at the same time a queued job like any other. */
module TurnOverlap {
  import opened Common
  import opened Jobs
  import SessionTurns
  import P = JobProtocol
  import Q = JobQueue

  /** Live turns write a snapshot and then attach their run; plain requests only attach. */
  datatype Phase = Executing | Snapped | Done

  datatype TurnRun = TurnRun(key: string, phase: Phase)

  predicate IsOpen(job: Job) { job.status == Running && job.turn.Some? && job.turn.value.open }

  function RequestOf(job: Job): string { if job.turn.Some? then job.turn.value.request else "" }

  function OrSame(job: Job, change: Option<Job>): Job { match change case Some(j) => j case None => job }

  /** finish_session_turn_snapshot: ignored for a turn of another request, otherwise the turn is closed. */
  function Snapshot(job: Job, key: string, now: int): Job {
    if key != "" && RequestOf(job) != "" && RequestOf(job) != key then job
    else
      var closed := job.(turn := Some(Turn(false, RequestOf(job))), updatedAt := now);
      if job.cancelRequested then OrSame(closed, MarkCancelled(closed, now)) else closed
  }

  /** attach_run_to_session_job: brings the job to running and ends it; it does not look at the turn. */
  function Attached(job: Job, ok: bool, now: int): Job {
    if job.cancelRequested then OrSame(job, MarkCancelled(job, now))
    else
      var running := SessionTurns.EnsureRunning(job, now);
      OrSame(running, if ok then MarkSucceeded(running, now) else MarkFailed(running, "agent_turn_failed", now))
  }

  /** The stored job of a session, as the ends of turns change it. */
  class SessionJob {
    var job: Job

    constructor (job: Job)
      ensures this.job == job
    {
      this.job := job;
    }

    method FinishSnapshot(key: string, now: int)
      modifies this
      ensures job == Snapshot(old(job), key, now)
      ensures key != "" && old(job).turn.Some? && old(job).turn.value.request !in {"", key} ==> job == old(job)
      ensures !(key != "" && old(job).turn.Some? && old(job).turn.value.request !in {"", key}) ==>
        && job.turn == Some(Turn(false, if old(job).turn.Some? then old(job).turn.value.request else "")) && job.updatedAt == now
        && job.status == (if old(job).cancelRequested && old(job).status != Succeeded then Cancelled else old(job).status)
    {
      var active := RequestOf(job);
      if key != "" && active != "" && active != key { return; }
      var cancelled := job.cancelRequested;
      job := job.(turn := Some(Turn(false, active)), updatedAt := now);
      if cancelled {
        var ended := MarkCancelled(job, now);
        if ended.Some? { job := ended.value; }
      }
    }

    method AttachRun(ok: bool, now: int)
      modifies this
      ensures job == Attached(old(job), ok, now)
      ensures job.turn == old(job).turn
      ensures old(job).cancelRequested ==> job.status == if old(job).status == Succeeded then Succeeded else Cancelled
      ensures !old(job).cancelRequested && old(job).status != Paused ==> job.status == if ok then Succeeded else Failed
      ensures !old(job).cancelRequested && old(job).status == Paused ==> job.status == if ok then Paused else Failed
    {
      var cancelled := job.cancelRequested;
      if !cancelled { job := SessionTurns.EnsureRunning(job, now); }
      var ended := if cancelled then MarkCancelled(job, now)
                   else if ok then MarkSucceeded(job, now)
                   else MarkFailed(job, "agent_turn_failed", now);
      if ended.Some? { job := ended.value; }
    }
  }

  // ---- Turns among the steps of the job protocol ----

  /** All jobs, workers and deliveries, the key of the session's job, and every turn granted, in order. */
  datatype State = State(protocol: P.State, key: P.Key, turns: seq<TurnRun>)

  datatype Step =
    | Of(step: P.Step)   // clients, workers, crashes and restarts, on this job or any other
    | NewJob(newKey: P.Key, session: string, principal: string, now: int)
    | Grant(request: string, now: int)
    | WriteSnapshot(i: nat, now: int)
    | Attach(i: nat, ok: bool, now: int)

  predicate Present(s: State) { s.key in s.protocol.jobs }

  function JobOf(s: State): Job
    requires Present(s)
  {
    s.protocol.jobs[s.key]
  }

  predicate OpenNow(s: State) { Present(s) && IsOpen(JobOf(s)) }

  /** The job as it is created for a session, before it is queued. */
  function Blank(session: string, now: int): Job { SessionTurns.NewJob(session, now).(status := Created) }

  predicate Enabled(s: State, step: Step) {
    match step
    case Of(p) => P.Enabled(s.protocol, p)
    case NewJob(newKey, session, principal, now) => !Present(s) && P.Enabled(s.protocol, P.CreateJob(newKey, Blank(session, now)))
    case Grant(_, _) => Present(s) && !OpenNow(s)
    case WriteSnapshot(i, _) => i < |s.turns| && s.turns[i].phase == Executing
    case Attach(i, _, _) => i < |s.turns| && s.turns[i].phase != Done
  }

  /** A job is created and queued at once: its delivery is there for the workers before the turn is opened. */
  function WithNewJob(p: P.State, newKey: P.Key, session: string, principal: string, now: int): P.State
    requires P.Enabled(p, P.CreateJob(newKey, Blank(session, now)))
  {
    P.Apply(P.Apply(p, P.CreateJob(newKey, Blank(session, now))), P.EnqueueJob(newKey, principal, now))
  }

  /** The session's own writes to its job, with nothing to write when the job is gone. */
  function WithJob(s: State, change: Job -> Job): P.State {
    if Present(s) then s.protocol.(jobs := s.protocol.jobs[s.key := change(JobOf(s))]) else s.protocol
  }

  function Moved(turns: seq<TurnRun>, i: nat, phase: Phase): seq<TurnRun>
    requires i < |turns|
  {
    turns[i := turns[i].(phase := phase)]
  }

  function Apply(s: State, step: Step): State
    requires Enabled(s, step)
  {
    match step
    case Of(p) => s.(protocol := P.Apply(s.protocol, p))
    case NewJob(newKey, session, principal, now) => s.(protocol := WithNewJob(s.protocol, newKey, session, principal, now), key := newKey)
    case Grant(request, now) =>
      s.(protocol := WithJob(s, job => SessionTurns.WithTurn(job, request, now)), turns := s.turns + [TurnRun(request, Executing)])
    case WriteSnapshot(i, now) =>
      s.(protocol := WithJob(s, job => Snapshot(job, s.turns[i].key, now)), turns := Moved(s.turns, i, Snapped))
    case Attach(i, ok, now) =>
      s.(protocol := WithJob(s, job => Attached(job, ok, now)), turns := Moved(s.turns, i, Done))
  }

  ghost predicate Runs(s: State, steps: seq<Step>)
    decreases |steps|
  {
    steps == [] || (Enabled(s, steps[0]) && Runs(Apply(s, steps[0]), steps[1..]))
  }

  ghost function After(s: State, steps: seq<Step>): State
    requires Runs(s, steps)
    decreases |steps|
  {
    if steps == [] then s else After(Apply(s, steps[0]), steps[1..])
  }

  // ---- One turn at a time ----

  ghost predicate ExecutingAt(s: State, i: nat) { i < |s.turns| && s.turns[i].phase == Executing }

  ghost predicate SomeExecuting(s: State) { exists i: nat :: ExecutingAt(s, i) }

  /** The session's promise: at most one turn executes. */
  ghost predicate Exclusive(s: State) { forall i: nat, j: nat :: ExecutingAt(s, i) && ExecutingAt(s, j) ==> i == j }

  /** A turn executes and nothing keeps another one from being granted. */
  ghost predicate Exposed(s: State) { !OpenNow(s) && SomeExecuting(s) }

  /** A turn that executes is the last one granted, and the job's open turn is its own. */
  ghost predicate Current(s: State) {
    && (Present(s) ==> JobOf(s).status != Paused)
    && forall i: nat :: ExecutingAt(s, i) ==> i == |s.turns| - 1 && OpenNow(s) && RequestOf(JobOf(s)) == s.turns[i].key
  }

  /** The steps of the job protocol that end a running job: a fence, a worker's end, a client's end, a restart, a deletion. */
  predicate EndsJob(p: P.State, step: P.Step, k: P.Key)
    requires P.Enabled(p, step)
  {
    match step
    case TryFence(w, _) => P.KeyOf(P.WorkerOf(p, w).p) == k && P.WorkerOf(p, w).p.attempt > 1
    case BodyMarks(w, _, _) => P.KeyOf(P.WorkerOf(p, w).p) == k
    case BodyReturns(w, _) => P.KeyOf(P.WorkerOf(p, w).p) == k
    case BodyRaises(w, _) => P.KeyOf(P.WorkerOf(p, w).p) == k
    case Finalize(j, _, _) => j == k
    case Restart(j, _, _) => j == k
    case DeleteJob(j) => j == k
    case _ => false
  }

  /** The step ends the session's job under an executing turn: one of those, or the attachment of another turn's run. */
  ghost predicate Undercuts(s: State, step: Step)
    requires Enabled(s, step)
  {
    match step
    case Of(p) => EndsJob(s.protocol, p, s.key) && SomeExecuting(s)
    case Attach(i, _, _) => exists j: nat :: j != i && ExecutingAt(s, j)
    case _ => false
  }

  lemma GrantOpens(job: Job, key: string, now: int)
    requires job.status != Paused
    ensures IsOpen(SessionTurns.WithTurn(job, key, now)) && RequestOf(SessionTurns.WithTurn(job, key, now)) == key
    ensures SessionTurns.WithTurn(job, key, now).status == Running
  {
  }

  lemma AttachCloses(job: Job, ok: bool, now: int)
    requires job.status != Paused
    ensures !IsOpen(Attached(job, ok, now)) && Attached(job, ok, now).status != Paused
  {
  }

  /** A step of the job protocol ends an open turn exactly if it is one of the ending ones on that job. */
  lemma OpenStep(p: P.State, step: P.Step, k: P.Key)
    requires P.Enabled(p, step) && k in p.jobs && IsOpen(p.jobs[k])
    ensures
      var q := P.Apply(p, step);
      && (EndsJob(p, step, k) <==> !(k in q.jobs && IsOpen(q.jobs[k])))
      && (k in q.jobs ==> RequestOf(q.jobs[k]) == RequestOf(p.jobs[k]) && q.jobs[k].status != Paused)
  {
    hide P.Apply, P.Enabled;
    if step.BodyMarks? || step.BodyReturns? || step.BodyRaises? {
      BodyStep(p, step, k);
    } else if OnQueue(step) {
      QueueStep(p, step);
    } else {
      JobStep(p, step, k);
    }
  }

  predicate OnQueue(step: P.Step) {
    step.ReclaimStale? || step.TakeDelivery? || step.Inspect? || step.Settle? || step.Beat? || step.Crash?
  }

  lemma QueueStep(p: P.State, step: P.Step)
    requires P.Enabled(p, step) && OnQueue(step)
    ensures P.Apply(p, step).jobs == p.jobs
  {
    hide Q.Ack, Q.Retry, Q.Heartbeat, Q.ReclaimOne, Q.Claimed;
  }

  lemma JobStep(p: P.State, step: P.Step, k: P.Key)
    requires P.Enabled(p, step) && k in p.jobs && IsOpen(p.jobs[k]) && !OnQueue(step)
    requires !step.BodyMarks? && !step.BodyReturns? && !step.BodyRaises?
    ensures
      var q := P.Apply(p, step);
      && (EndsJob(p, step, k) <==> !(k in q.jobs && IsOpen(q.jobs[k])))
      && (k in q.jobs ==> RequestOf(q.jobs[k]) == RequestOf(p.jobs[k]) && q.jobs[k].status != Paused)
  {
    hide P.HandleError, P.FinishJob;
  }

  lemma BodyStep(p: P.State, step: P.Step, k: P.Key)
    requires P.Enabled(p, step) && k in p.jobs && IsOpen(p.jobs[k])
    requires step.BodyMarks? || step.BodyReturns? || step.BodyRaises?
    ensures
      var q := P.Apply(p, step);
      && (EndsJob(p, step, k) <==> !(k in q.jobs && IsOpen(q.jobs[k])))
      && (k in q.jobs ==> RequestOf(q.jobs[k]) == RequestOf(p.jobs[k]) && q.jobs[k].status != Paused)
  {
    hide P.HandleError, P.FinishJob;
    var d := P.WorkerOf(p, step.w).p;
    ErrorJob(p, step.w, d, step.now, k);
    FinishedJob(p, step.w, d, step.now, k);
  }

  /** What the runner's exception handler does to a job. */
  lemma ErrorJob(p: P.State, w: nat, d: Q.Payload, now: int, k: P.Key)
    ensures
      var q := P.HandleError(p, w, d, now);
      && (k in q.jobs <==> k in p.jobs)
      && (k in p.jobs && P.KeyOf(d) != k ==> q.jobs[k] == p.jobs[k])
      && (k in p.jobs && P.KeyOf(d) == k ==> q.jobs[k].turn == p.jobs[k].turn && q.jobs[k].status in {p.jobs[k].status, Failed})
      && (k in p.jobs && P.KeyOf(d) == k && p.jobs[k].status == Running ==> q.jobs[k].status == Failed)
  {
  }

  /** What the end of a body does to a job. */
  lemma FinishedJob(p: P.State, w: nat, d: Q.Payload, now: int, k: P.Key)
    ensures
      var q := P.FinishJob(p, w, d, now);
      && (k in q.jobs <==> k in p.jobs)
      && (k in p.jobs && P.KeyOf(d) != k ==> q.jobs[k] == p.jobs[k])
      && (k in p.jobs && P.KeyOf(d) == k ==>
            q.jobs[k].turn == p.jobs[k].turn && q.jobs[k].status in {p.jobs[k].status, Succeeded, Failed})
      && (k in p.jobs && P.KeyOf(d) == k && p.jobs[k].status == Running ==> q.jobs[k].status == Succeeded)
  {
    hide P.HandleError;
    ErrorJob(p, w, d, now, k);
  }

  lemma UnpausedStep(p: P.State, step: P.Step, k: P.Key)
    requires P.Enabled(p, step) && (k in p.jobs ==> p.jobs[k].status != Paused)
    ensures k in P.Apply(p, step).jobs ==> P.Apply(p, step).jobs[k].status != Paused
  {
    hide P.Apply, P.Enabled;
    if step.BodyMarks? || step.BodyReturns? || step.BodyRaises? {
      BodyUnpaused(p, step, k);
    } else if OnQueue(step) {
      QueueStep(p, step);
    } else {
      JobUnpaused(p, step, k);
    }
  }

  lemma BodyUnpaused(p: P.State, step: P.Step, k: P.Key)
    requires P.Enabled(p, step) && (k in p.jobs ==> p.jobs[k].status != Paused)
    requires step.BodyMarks? || step.BodyReturns? || step.BodyRaises?
    ensures k in P.Apply(p, step).jobs ==> P.Apply(p, step).jobs[k].status != Paused
  {
    hide P.HandleError, P.FinishJob, Allowed;
    var d := P.WorkerOf(p, step.w).p;
    ErrorJob(p, step.w, d, step.now, k);
    FinishedJob(p, step.w, d, step.now, k);
  }

  lemma JobUnpaused(p: P.State, step: P.Step, k: P.Key)
    requires P.Enabled(p, step) && (k in p.jobs ==> p.jobs[k].status != Paused) && !OnQueue(step)
    requires !step.BodyMarks? && !step.BodyReturns? && !step.BodyRaises?
    ensures k in P.Apply(p, step).jobs ==> P.Apply(p, step).jobs[k].status != Paused
  {
    hide P.HandleError, P.FinishJob, Allowed;
  }

  lemma ProtocolExactly(s: State, p: P.Step)
    requires Current(s) && Enabled(s, Of(p))
    ensures Current(Apply(s, Of(p))) <==> !Undercuts(s, Of(p))
    ensures Exposed(Apply(s, Of(p))) <==> Undercuts(s, Of(p))
  {
    hide P.Apply, P.Enabled, EndsJob, IsOpen;
    var t := Apply(s, Of(p));
    assert forall j: nat :: ExecutingAt(t, j) <==> ExecutingAt(s, j);
    UnpausedStep(s.protocol, p, s.key);
    if i: nat :| ExecutingAt(s, i) { OpenStep(s.protocol, p, s.key); }
  }

  lemma NewJobStep(s: State, newKey: P.Key, session: string, principal: string, now: int)
    requires Current(s) && Enabled(s, NewJob(newKey, session, principal, now))
    ensures Current(Apply(s, NewJob(newKey, session, principal, now))) && !Exposed(Apply(s, NewJob(newKey, session, principal, now)))
  {
    var t := Apply(s, NewJob(newKey, session, principal, now));
    assert forall j: nat :: ExecutingAt(t, j) <==> ExecutingAt(s, j);
  }

  lemma SessionExactly(s: State, step: Step)
    requires Current(s) && Enabled(s, step) && !step.Of? && !step.NewJob?
    ensures Current(Apply(s, step)) <==> !Undercuts(s, step)
    ensures Exposed(Apply(s, step)) <==> Undercuts(s, step)
  {
    hide SessionTurns.WithTurn, Attached;
    var t := Apply(s, step);
    match step
    case Grant(request, now) =>
      GrantOpens(JobOf(s), request, now);
      assert forall i :: 0 <= i < |s.turns| ==> t.turns[i] == s.turns[i];
      assert forall i: nat :: ExecutingAt(t, i) ==> i == |s.turns| || ExecutingAt(s, i);
    case WriteSnapshot(i, now) =>
      assert ExecutingAt(s, i);
      assert forall j: nat :: ExecutingAt(t, j) ==> j != i && ExecutingAt(s, j);
    case Attach(i, ok, now) =>
      if Present(s) { AttachCloses(JobOf(s), ok, now); }
      assert forall j: nat :: ExecutingAt(t, j) <==> j != i && ExecutingAt(s, j);
  }

  /** From a state in which the executing turn is current, a step keeps it so if and only if it does not undercut it. */
  lemma CurrentExactly(s: State, step: Step)
    requires Current(s) && Enabled(s, step)
    ensures Current(Apply(s, step)) <==> !Undercuts(s, step)
    ensures Exposed(Apply(s, step)) <==> Undercuts(s, step)
  {
    hide Current, Exposed, Apply, Enabled, Undercuts;
    match step
    case Of(p) => ProtocolExactly(s, p);
    case NewJob(newKey, session, principal, now) =>
      NewJobStep(s, newKey, session, principal, now);
      assert !Undercuts(s, step) by { CreationKeeps(s, step); }
    case _ => SessionExactly(s, step);
  }

  lemma CreationKeeps(s: State, step: Step)
    requires Enabled(s, step) && step.NewJob?
    ensures !Undercuts(s, step)
  {
  }

  ghost predicate NeverUndercut(s: State, steps: seq<Step>)
    requires Runs(s, steps)
    decreases |steps|
  {
    steps == [] || (!Undercuts(s, steps[0]) && NeverUndercut(Apply(s, steps[0]), steps[1..]))
  }

  ghost predicate NeverExposed(s: State, steps: seq<Step>)
    requires Runs(s, steps)
    decreases |steps|
  {
    !Exposed(s) && (steps == [] || NeverExposed(Apply(s, steps[0]), steps[1..]))
  }

  /** Before the session has a job. */
  function Start(key: P.Key): State { State(P.START, key, []) }

  /**
   * Over every run of the session among clients, workers, crashes and restarts: no second turn can be granted while one
   * executes, if and only if no step undercuts an executing turn; then at most one turn executes at any time.
   */
  lemma OneTurnExactly(key: P.Key, steps: seq<Step>)
    requires Runs(Start(key), steps)
    ensures NeverExposed(Start(key), steps) <==> NeverUndercut(Start(key), steps)
    ensures NeverUndercut(Start(key), steps) ==> Exclusive(After(Start(key), steps))
  {
    OneTurnFrom(Start(key), steps);
  }

  lemma {:induction false} OneTurnFrom(s: State, steps: seq<Step>)
    requires Current(s) && Runs(s, steps)
    ensures NeverExposed(s, steps) <==> NeverUndercut(s, steps)
    ensures NeverUndercut(s, steps) ==> Exclusive(After(s, steps))
    decreases |steps|
  {
    hide Apply, Enabled, Undercuts;
    if steps != [] {
      CurrentExactly(s, steps[0]);
      if !Undercuts(s, steps[0]) { OneTurnFrom(Apply(s, steps[0]), steps[1..]); }
    }
  }

  /** Once exposed, the next request overlaps: it is granted on the session's job, or on a new one when that is gone. */
  lemma ExposedOverlaps(s: State, request: string, newKey: P.Key, session: string, principal: string, now: int) returns (steps: seq<Step>)
    requires Exposed(s) && (Present(s) ==> JobOf(s).status != Paused)
    requires newKey !in s.protocol.jobs && newKey !in s.protocol.history
    ensures Runs(s, steps) && !Exclusive(After(s, steps))
  {
    var i: nat :| ExecutingAt(s, i);
    var grant := Grant(request, now);
    if Present(s) {
      RunsOne(s, grant);
      steps := [grant];
      assert ExecutingAt(Apply(s, grant), i) && ExecutingAt(Apply(s, grant), |s.turns|);
    } else {
      var create := NewJob(newKey, session, principal, now);
      var t := Apply(s, create);
      RunsOne(t, grant);
      RunsStep(s, create, [grant]);
      steps := [create] + [grant];
      assert ExecutingAt(Apply(t, grant), i) && ExecutingAt(Apply(t, grant), |s.turns|);
    }
  }

  lemma RunsStep(s: State, step: Step, rest: seq<Step>)
    requires Enabled(s, step) && Runs(Apply(s, step), rest)
    ensures Runs(s, [step] + rest) && After(s, [step] + rest) == After(Apply(s, step), rest)
  {
    assert ([step] + rest)[1..] == rest;
  }

  lemma RunsOne(s: State, step: Step)
    requires Enabled(s, step)
    ensures Runs(s, [step]) && After(s, [step]) == Apply(s, step)
  {
    RunsStep(s, step, []);
    assert [step] + [] == [step];
  }

  // ---- Snapshots of older requests ----

  lemma SnapshotCloses(job: Job, key: string, now: int)
    requires IsOpen(job) && RequestOf(job) == key
    ensures !IsOpen(Snapshot(job, key, now)) && Snapshot(job, key, now).status != Paused
  {
  }

  /** The terminal snapshot of a request leaves an open turn alone if and only if both have keys and the keys differ. */
  lemma SnapshotExactly(s: State, i: nat, now: int)
    requires Enabled(s, WriteSnapshot(i, now)) && OpenNow(s)
    ensures
      var t := Apply(s, WriteSnapshot(i, now));
      && (OpenNow(t) <==> s.turns[i].key != "" && RequestOf(JobOf(s)) !in {"", s.turns[i].key})
      && (OpenNow(t) ==> t.protocol.jobs == s.protocol.jobs)
  {
  }
}
