/** Workers, clients and restarts acting on jobs through the queue, in every interleaving. */
module JobProtocol {
  import opened Common
  import opened Jobs
  import Q = JobQueue

  datatype Key = Key(workspace: string, job: string)

  function KeyOf(p: Q.Payload): Key { Key(p.workspace, p.job) }

  /** Who wrote a status. */
  datatype Cause = Enqueued | Retried | Claimed(worker: nat) | Fenced(fencer: nat) | Reconciled | Reactivated | Marked | FromQueue

  datatype Move = Move(from: Status, to: Status, cause: Cause)

  /** Where a worker is in its iteration. `start` is the position of its claim in the job's history. */
  datatype Worker =
    | Idle
    | Received(p: Q.Payload)
    | Inspected(p: Q.Payload, found: bool)
    | Ready(p: Q.Payload)
    | Inside(p: Q.Payload, start: nat)
    | Acking(p: Q.Payload)
    | Retrying(p: Q.Payload)

  /** `history` keeps every status write of every job ever created. */
  datatype State = State(
    jobs: map<Key, Job>,
    queue: Q.Queue,
    workers: map<nat, Worker>,
    history: map<Key, seq<Move>>)

  datatype Step =
    // clients
    | CreateJob(k: Key, job: Job)
    | EnqueueJob(k: Key, principal: string, now: int)
    | RetryJob(k: Key, principal: string, now: int)
    | CancelQueued(k: Key, now: int)
    | CancelRunning(k: Key, expected: string, now: int)
    | Reactivate(k: Key, now: int)
    | Finalize(k: Key, to: Status, now: int)
    | Restart(k: Key, startedBefore: int, now: int)
    | DeleteJob(k: Key)
    // workers
    | ReclaimStale(p: Q.Payload)
    | TakeDelivery(w: nat, now: int)
    | Inspect(w: nat)
    | TryFence(w: nat, now: int)
    | StartJob(w: nat, now: int)
    | BodyMarks(w: nat, to: Status, now: int)
    | BodyReturns(w: nat, now: int)
    | BodyRaises(w: nat, now: int)
    | Settle(w: nat)
    | Beat(w: nat, now: int)
    | Crash(w: nat)

  function WorkerOf(s: State, w: nat): Worker { if w in s.workers then s.workers[w] else Idle }

  function SetWorker(s: State, w: nat, state: Worker): State { s.(workers := s.workers[w := state]) }

  function HistoryOf(s: State, k: Key): seq<Move> { if k in s.history then s.history[k] else [] }

  /** Writes a job back and records the status write. */
  function Write(s: State, k: Key, job: Job, cause: Cause): State
    requires k in s.jobs
  {
    s.(jobs := s.jobs[k := job],
       history := s.history[k := HistoryOf(s, k) + [Move(s.jobs[k].status, job.status, cause)]])
  }

  /** mark_succeeded, mark_failed or mark_cancelled. */
  function MarkTo(job: Job, to: Status, now: int): Option<Job> {
    match to
    case Succeeded => MarkSucceeded(job, now)
    case Failed => MarkFailed(job, "", now)
    case Cancelled => MarkCancelled(job, now)
    case _ => None
  }

  predicate Enabled(s: State, step: Step) {
    match step
    case CreateJob(k, job) => k !in s.jobs && k !in s.history && job.status == Created
    case EnqueueJob(k, _, now) => k in s.jobs && MarkQueued(s.jobs[k], now).Some?
    case RetryJob(k, _, now) => k in s.jobs && Retry(s.jobs[k], now).Some?
    case CancelQueued(k, now) => k in s.jobs && s.jobs[k].status == Queued
    case CancelRunning(k, expected, now) => k in s.jobs && RequestCancel(s.jobs[k], expected, now).Some?
    case Reactivate(k, now) => k in s.jobs && MarkRunning(s.jobs[k], now).Some?
    case Finalize(k, to, now) => k in s.jobs && MarkTo(s.jobs[k], to, now).Some?
    case Restart(k, before, now) => k in s.jobs && Reconcile(s.jobs[k], before, now).Some?
    case DeleteJob(k) => k in s.jobs
    case ReclaimStale(p) => p in s.queue.leases
    case TakeDelivery(w, now) => WorkerOf(s, w) == Idle && s.queue.queued != []
    case Inspect(w) => WorkerOf(s, w).Received?
    case TryFence(w, now) => WorkerOf(s, w).Inspected?
    case StartJob(w, now) => WorkerOf(s, w).Ready?
    case BodyMarks(w, to, now) => WorkerOf(s, w).Inside? && (to == Failed || to == Cancelled)
    case BodyReturns(w, now) => WorkerOf(s, w).Inside?
    case BodyRaises(w, now) => WorkerOf(s, w).Inside?
    case Settle(w) => WorkerOf(s, w).Acking? || WorkerOf(s, w).Retrying?
    case Beat(w, now) => WorkerOf(s, w).Inside?
    case Crash(w) => true
  }

  /** The runner's handler for an exception: fail the job; if even that is refused, the delivery is retried. */
  function HandleError(s: State, w: nat, p: Q.Payload, now: int): State {
    var k := KeyOf(p);
    if k !in s.jobs then SetWorker(s, w, Acking(p))
    else match MarkFailed(s.jobs[k], "", now)
      case Some(j) => SetWorker(Write(s, k, j, Marked), w, Acking(p))
      case None => SetWorker(s, w, Retrying(p))
  }

  /** After a body returned: a failed or cancelled job is left alone, otherwise it is marked succeeded. */
  function FinishJob(s: State, w: nat, p: Q.Payload, now: int): State {
    var k := KeyOf(p);
    if k !in s.jobs || s.jobs[k].status == Failed || s.jobs[k].status == Cancelled then SetWorker(s, w, Acking(p))
    else match MarkSucceeded(s.jobs[k], now)
      case Some(j) => SetWorker(Write(s, k, j, Marked), w, Acking(p))
      case None => HandleError(s, w, p, now)
  }

  function Apply(s: State, step: Step): State
    requires Enabled(s, step)
  {
    match step
    case CreateJob(k, job) => s.(jobs := s.jobs[k := job], history := s.history[k := []])
    case EnqueueJob(k, principal, now) =>
      Write(s, k, MarkQueued(s.jobs[k], now).value, Enqueued)
      .(queue := Q.Push(s.queue, Q.Payload(k.workspace, k.job, 1, principal)))
    case RetryJob(k, principal, now) =>
      Write(s, k, Retry(s.jobs[k], now).value, Retried)
      .(queue := Q.Push(s.queue, Q.Payload(k.workspace, k.job, 1, principal)))
    case CancelQueued(k, now) => Write(s, k, s.jobs[k].(status := Cancelled, updatedAt := now), FromQueue)
    case CancelRunning(k, expected, now) => s.(jobs := s.jobs[k := RequestCancel(s.jobs[k], expected, now).value])
    case Reactivate(k, now) => Write(s, k, MarkRunning(s.jobs[k], now).value, Reactivated)
    case Finalize(k, to, now) => Write(s, k, MarkTo(s.jobs[k], to, now).value, Marked)
    case Restart(k, before, now) => Write(s, k, Reconcile(s.jobs[k], before, now).value, Reconciled)
    case DeleteJob(k) => s.(jobs := s.jobs - {k})
    case ReclaimStale(p) => s.(queue := Q.ReclaimOne(s.queue, p))
    case TakeDelivery(w, now) =>
      var p := s.queue.queued[|s.queue.queued| - 1];
      SetWorker(s.(queue := Q.Claimed(s.queue, now)), w, Received(p))
    case Inspect(w) =>
      var p := WorkerOf(s, w).p;
      SetWorker(s, w, Inspected(p, KeyOf(p) in s.jobs))
    case TryFence(w, now) =>
      var p, k := WorkerOf(s, w).p, KeyOf(WorkerOf(s, w).p);
      if k in s.jobs && Fence(s.jobs[k], p.attempt, now).Some? then
        SetWorker(Write(s, k, Fence(s.jobs[k], p.attempt, now).value, Fenced(w)), w, Acking(p))
      else SetWorker(s, w, if WorkerOf(s, w).found then Ready(p) else Acking(p))
    case StartJob(w, now) =>
      var p, k := WorkerOf(s, w).p, KeyOf(WorkerOf(s, w).p);
      if k in s.jobs && Claim(s.jobs[k], now).Some? then
        SetWorker(Write(s, k, Claim(s.jobs[k], now).value, Claimed(w)), w, Inside(p, |HistoryOf(s, k)|))
      else SetWorker(s, w, Acking(p))
    case BodyMarks(w, to, now) =>
      var p, k := WorkerOf(s, w).p, KeyOf(WorkerOf(s, w).p);
      if k !in s.jobs then s
      else (match MarkTo(s.jobs[k], to, now)
            case Some(j) => Write(s, k, j, Marked)
            case None => HandleError(s, w, p, now))
    case BodyReturns(w, now) => FinishJob(s, w, WorkerOf(s, w).p, now)
    case BodyRaises(w, now) => HandleError(s, w, WorkerOf(s, w).p, now)
    case Settle(w) =>
      var worker := WorkerOf(s, w);
      SetWorker(s.(queue := if worker.Acking? then Q.Ack(s.queue, worker.p) else Q.Retry(s.queue, worker.p)), w, Idle)
    case Beat(w, now) => s.(queue := Q.Heartbeat(s.queue, WorkerOf(s, w).p, now))
    case Crash(w) => SetWorker(s, w, Idle)
  }

  const START := State(map[], Q.Queue([], [], map[]), map[], map[])

  ghost predicate Runs(s: State, steps: seq<Step>)
    decreases |steps|
  {
    steps == [] || (Enabled(s, steps[0]) && Runs(Apply(s, steps[0]), steps[1..]))
  }

  ghost function After(s: State, steps: seq<Step>): State
    requires Runs(s, steps)
    decreases |steps|
  {
    if steps == [] then s else After(Apply(s, steps[0]), steps[1..])
  }

  // ---- Histories ----

  /** Which status writes each cause can make. */
  predicate Legal(m: Move) {
    match m.cause
    case Enqueued => m.to == Queued && Allowed(m.from, m.to)
    case Retried => m.to == Queued && Allowed(m.from, m.to)
    case Claimed(_) => m.from == Queued && m.to == Running
    case Fenced(_) => m.from == Running && m.to == Failed
    case Reconciled => m.from == Running && (m.to == Failed || m.to == Cancelled)
    case Reactivated => m.to == Running && Allowed(m.from, m.to)
    case Marked => (m.to == Succeeded || m.to == Failed || m.to == Cancelled) && Allowed(m.from, m.to)
    case FromQueue => m.from == Queued && m.to == Cancelled
  }

  /** The status before write i. */
  function StatusAt(h: seq<Move>, i: nat): Status
    requires i <= |h|
  {
    if i == 0 then Created else h[i - 1].to
  }

  function Last(h: seq<Move>): Status { StatusAt(h, |h|) }

  /** A history starts at created and every write is legal and starts where the one before ended. */
  ghost predicate Connected(h: seq<Move>) {
    && (forall i :: 0 <= i < |h| ==> Legal(h[i]))
    && (forall i :: 0 <= i < |h| ==> h[i].from == StatusAt(h, i))
  }

  function Count(h: seq<Move>, f: Move -> bool): nat {
    if h == [] then 0 else Count(h[..|h| - 1], f) + if f(h[|h| - 1]) then 1 else 0
  }

  predicate IsStart(m: Move) { m.cause.Claimed? }
  predicate IsQueueing(m: Move) { m.to == Queued }

  ghost function Those(h: seq<Move>, f: Move -> bool): set<nat> { set i: nat | i < |h| && f(h[i]) }

  lemma {:induction false} CountIs(h: seq<Move>, f: Move -> bool)
    ensures Count(h, f) == |Those(h, f)|
  {
    if h != [] {
      var front, i := h[..|h| - 1], |h| - 1;
      CountIs(front, f);
      assert Those(h, f) == Those(front, f) + if f(h[i]) then {i} else {};
    }
  }

  /** Every start uses up one time the job was set to queued. */
  lemma {:induction false} StartsWithinQueueings(h: seq<Move>)
    requires Connected(h)
    ensures Count(h, IsStart) + (if Last(h) == Queued then 1 else 0) <= Count(h, IsQueueing)
  {
    if h != [] {
      var front := h[..|h| - 1];
      assert forall i :: 0 <= i < |front| ==> StatusAt(front, i) == StatusAt(h, i);
      StartsWithinQueueings(front);
      assert h[|h| - 1].from == StatusAt(h, |h| - 1) == Last(front);
      assert Legal(h[|h| - 1]);
    }
  }

  ghost predicate FailsThenQueued(h: seq<Move>, a: int, i: int, j: int, b: int) {
    && 0 <= a < i < j < b < |h|
    && h[i].from == Running && h[i].to == Failed
    && h[j].from == Failed && h[j].to == Queued && (h[j].cause == Enqueued || h[j].cause == Retried)
  }

  /** From running back to queued there is no way but to fail and to be queued again explicitly. */
  lemma {:induction false} RequeueBetween(h: seq<Move>, a: int, b: int) returns (i: int, j: int)
    requires Connected(h) && 0 <= a < b < |h| && h[a].to == Running && h[b].from == Queued
    ensures FailsThenQueued(h, a, i, j, b)
    decreases b
  {
    hide Connected;
    j := b - 1;
    Neighbours(h, b);
    assert j > a;
    Neighbours(h, j);
    if h[j].from == Queued {
      i, j := RequeueBetween(h, a, j);
    } else {
      i := FailedFrom(h, a, j);
    }
  }

  /** The write before another one is legal and ends where the other starts; no write leads back to created or to paused. */
  lemma Neighbours(h: seq<Move>, i: int)
    requires Connected(h) && 0 < i < |h|
    ensures Legal(h[i - 1]) && Legal(h[i]) && h[i].from == h[i - 1].to
    ensures h[i].from != Created && h[i].from != Paused
  {
  }

  /** A failed status after running goes back, past repeated failures and queueings, to a failure from running. */
  lemma {:induction false} FailedFrom(h: seq<Move>, a: int, j: int) returns (i: int)
    requires Connected(h) && 0 <= a < j < |h| && h[a].to == Running && h[j].from == Failed
    ensures a < i < j && h[i].from == Running && h[i].to == Failed
    decreases j
  {
    hide Connected;
    i := j - 1;
    Neighbours(h, j);
    assert i > a;
    Neighbours(h, i);
    if h[i].from == Failed {
      i := FailedFrom(h, a, i);
    } else if h[i].from == Queued {
      var x, y := RequeueBetween(h, a, i);
      i := x;
    }
  }

  // ---- Invariants of every run ----

  /** Histories are connected and end in the present status; jobs are only created with a history. */
  ghost predicate Recorded(s: State) {
    && (forall k :: k in s.history ==> Connected(s.history[k]))
    && (forall k :: k in s.jobs ==> k in s.history && Last(s.history[k]) == s.jobs[k].status)
  }

  /** A worker inside a job got there by its own claim, recorded in the history. */
  ghost predicate Entered(s: State) {
    forall w :: w in s.workers && s.workers[w].Inside? ==> EnteredAt(s, w, KeyOf(s.workers[w].p), s.workers[w].start)
  }

  ghost predicate EnteredAt(s: State, w: nat, k: Key, start: nat) {
    k in s.history && start < |s.history[k]| && s.history[k][start].cause == Claimed(w)
  }

  lemma ConnectedSnoc(h: seq<Move>, m: Move)
    requires Connected(h) && Legal(m) && m.from == Last(h)
    ensures Connected(h + [m]) && Last(h + [m]) == m.to
  {
    hide Legal;
    forall i | 0 <= i < |h| ensures StatusAt(h + [m], i) == StatusAt(h, i) {
      if i > 0 { assert (h + [m])[i - 1] == h[i - 1]; }
    }
  }

  lemma WriteKeeps(s: State, k: Key, job: Job, cause: Cause)
    requires Recorded(s) && Entered(s) && k in s.jobs && Legal(Move(s.jobs[k].status, job.status, cause))
    ensures Recorded(Write(s, k, job, cause)) && Entered(Write(s, k, job, cause))
    ensures Write(s, k, job, cause).workers == s.workers
    ensures Write(s, k, job, cause).history[k] == s.history[k] + [Move(s.jobs[k].status, job.status, cause)]
  {
    hide Connected, Legal;
    ConnectedSnoc(s.history[k], Move(s.jobs[k].status, job.status, cause));
  }

  lemma WorkerKeeps(s: State, w: nat, state: Worker)
    requires Recorded(s) && Entered(s)
    requires state.Inside? ==> EnteredAt(s, w, KeyOf(state.p), state.start)
    ensures Recorded(SetWorker(s, w, state)) && Entered(SetWorker(s, w, state))
  {
  }

  lemma HandleErrorKeeps(s: State, w: nat, p: Q.Payload, now: int)
    requires Recorded(s) && Entered(s)
    ensures Recorded(HandleError(s, w, p, now)) && Entered(HandleError(s, w, p, now))
  {
    hide Recorded, Entered;
    var k := KeyOf(p);
    if k in s.jobs && MarkFailed(s.jobs[k], "", now).Some? {
      var j := MarkFailed(s.jobs[k], "", now).value;
      WriteKeeps(s, k, j, Marked);
      WorkerKeeps(Write(s, k, j, Marked), w, Acking(p));
    } else {
      WorkerKeeps(s, w, Acking(p));
      WorkerKeeps(s, w, Retrying(p));
    }
  }

  lemma FinishJobKeeps(s: State, w: nat, p: Q.Payload, now: int)
    requires Recorded(s) && Entered(s)
    ensures Recorded(FinishJob(s, w, p, now)) && Entered(FinishJob(s, w, p, now))
  {
    hide Recorded, Entered, HandleError;
    var k := KeyOf(p);
    HandleErrorKeeps(s, w, p, now);
    WorkerKeeps(s, w, Acking(p));
    if k in s.jobs && MarkSucceeded(s.jobs[k], now).Some? {
      var j := MarkSucceeded(s.jobs[k], now).value;
      WriteKeeps(s, k, j, Marked);
      WorkerKeeps(Write(s, k, j, Marked), w, Acking(p));
    }
  }

  lemma ClientStepKeeps(s: State, step: Step)
    requires Recorded(s) && Entered(s) && Enabled(s, step)
    requires step.CreateJob? || step.EnqueueJob? || step.RetryJob? || step.CancelQueued? || step.CancelRunning?
      || step.Reactivate? || step.Finalize? || step.Restart? || step.DeleteJob?
    ensures Recorded(Apply(s, step)) && Entered(Apply(s, step))
  {
    hide Recorded, Entered, Allowed;
    match step
    case CreateJob(k, job) => CreateKeeps(s, k, job);
    case EnqueueJob(k, principal, now) =>
      var t := Write(s, k, MarkQueued(s.jobs[k], now).value, Enqueued);
      WriteKeeps(s, k, MarkQueued(s.jobs[k], now).value, Enqueued);
      QueueKeeps(t, Apply(s, step).queue);
    case RetryJob(k, principal, now) =>
      var t := Write(s, k, Retry(s.jobs[k], now).value, Retried);
      WriteKeeps(s, k, Retry(s.jobs[k], now).value, Retried);
      QueueKeeps(t, Apply(s, step).queue);
    case CancelQueued(k, now) => WriteKeeps(s, k, s.jobs[k].(status := Cancelled, updatedAt := now), FromQueue);
    case CancelRunning(k, expected, now) => SameStatusKeeps(s, k, RequestCancel(s.jobs[k], expected, now).value);
    case Reactivate(k, now) => WriteKeeps(s, k, MarkRunning(s.jobs[k], now).value, Reactivated);
    case Finalize(k, to, now) => WriteKeeps(s, k, MarkTo(s.jobs[k], to, now).value, Marked);
    case Restart(k, before, now) => WriteKeeps(s, k, Reconcile(s.jobs[k], before, now).value, Reconciled);
    case DeleteJob(k) => DeleteKeeps(s, k);
  }

  lemma QueueKeeps(s: State, queue: Q.Queue)
    requires Recorded(s) && Entered(s)
    ensures Recorded(s.(queue := queue)) && Entered(s.(queue := queue))
  {
  }

  lemma CreateKeeps(s: State, k: Key, job: Job)
    requires Recorded(s) && Entered(s) && k !in s.jobs && k !in s.history && job.status == Created
    ensures
      var t := s.(jobs := s.jobs[k := job], history := s.history[k := []]);
      Recorded(t) && Entered(t)
  {
  }

  lemma SameStatusKeeps(s: State, k: Key, job: Job)
    requires Recorded(s) && Entered(s) && k in s.jobs && job.status == s.jobs[k].status
    ensures
      var t := s.(jobs := s.jobs[k := job]);
      Recorded(t) && Entered(t)
  {
    hide Connected;
  }

  lemma DeleteKeeps(s: State, k: Key)
    requires Recorded(s) && Entered(s)
    ensures
      var t := s.(jobs := s.jobs - {k});
      Recorded(t) && Entered(t)
  {
  }

  lemma WorkerStepKeeps(s: State, step: Step)
    requires Recorded(s) && Entered(s) && Enabled(s, step)
    requires step.TryFence? || step.StartJob? || step.BodyMarks? || step.BodyReturns? || step.BodyRaises?
    ensures Recorded(Apply(s, step)) && Entered(Apply(s, step))
  {
    hide Recorded, Entered, HandleError, FinishJob, Allowed;
    var worker := WorkerOf(s, step.w);
    var p, k := worker.p, KeyOf(worker.p);
    match step
    case TryFence(w, now) =>
      WorkerKeeps(s, w, Ready(p));
      WorkerKeeps(s, w, Acking(p));
      if k in s.jobs && Fence(s.jobs[k], p.attempt, now).Some? {
        var j := Fence(s.jobs[k], p.attempt, now).value;
        WriteKeeps(s, k, j, Fenced(w));
        WorkerKeeps(Write(s, k, j, Fenced(w)), w, Acking(p));
      }
    case StartJob(w, now) =>
      WorkerKeeps(s, w, Acking(p));
      if k in s.jobs && Claim(s.jobs[k], now).Some? {
        var j := Claim(s.jobs[k], now).value;
        WriteKeeps(s, k, j, Claimed(w));
        HasHistory(s, k);
        WorkerKeeps(Write(s, k, j, Claimed(w)), w, Inside(p, |HistoryOf(s, k)|));
      }
    case BodyMarks(w, to, now) =>
      HandleErrorKeeps(s, w, p, now);
      if k in s.jobs && MarkTo(s.jobs[k], to, now).Some? { WriteKeeps(s, k, MarkTo(s.jobs[k], to, now).value, Marked); }
    case BodyReturns(w, now) => FinishJobKeeps(s, w, p, now);
    case BodyRaises(w, now) => HandleErrorKeeps(s, w, p, now);
  }

  lemma HasHistory(s: State, k: Key)
    requires Recorded(s) && k in s.jobs
    ensures k in s.history
  {
  }

  lemma QueueStepKeeps(s: State, step: Step)
    requires Recorded(s) && Entered(s) && Enabled(s, step)
    requires step.ReclaimStale? || step.TakeDelivery? || step.Inspect? || step.Settle? || step.Beat? || step.Crash?
    ensures Recorded(Apply(s, step)) && Entered(Apply(s, step))
  {
    hide Recorded, Entered;
    var t := Apply(s, step);
    QueueKeeps(s, t.queue);
    var u := s.(queue := t.queue);
    match step
    case TakeDelivery(w, now) => WorkerKeeps(u, w, t.workers[w]);
    case Inspect(w) => WorkerKeeps(u, w, t.workers[w]);
    case Settle(w) => WorkerKeeps(u, w, Idle);
    case Crash(w) => WorkerKeeps(u, w, Idle);
    case _ =>
  }

  lemma StepKeeps(s: State, step: Step)
    requires Recorded(s) && Entered(s) && Enabled(s, step)
    ensures Recorded(Apply(s, step)) && Entered(Apply(s, step))
  {
    hide Recorded, Entered, Apply, Enabled;
    match step
    case TryFence(_, _) => WorkerStepKeeps(s, step);
    case StartJob(_, _) => WorkerStepKeeps(s, step);
    case BodyMarks(_, _, _) => WorkerStepKeeps(s, step);
    case BodyReturns(_, _) => WorkerStepKeeps(s, step);
    case BodyRaises(_, _) => WorkerStepKeeps(s, step);
    case ReclaimStale(_) => QueueStepKeeps(s, step);
    case TakeDelivery(_, _) => QueueStepKeeps(s, step);
    case Inspect(_) => QueueStepKeeps(s, step);
    case Settle(_) => QueueStepKeeps(s, step);
    case Beat(_, _) => QueueStepKeeps(s, step);
    case Crash(_) => QueueStepKeeps(s, step);
    case _ => ClientStepKeeps(s, step);
  }

  lemma {:induction false} RunKeeps(s: State, steps: seq<Step>)
    requires Runs(s, steps) && Recorded(s) && Entered(s)
    ensures Recorded(After(s, steps)) && Entered(After(s, steps))
    decreases |steps|
  {
    hide Recorded, Entered, Apply, Enabled;
    if steps != [] {
      StepKeeps(s, steps[0]);
      RunKeeps(Apply(s, steps[0]), steps[1..]);
    }
  }

  lemma StartHolds()
    ensures Recorded(START) && Entered(START)
  {
  }

  // ---- Main results ----

  /** In every run a job is started through the queue at most as often as it was set to queued. */
  lemma StartsAtMostQueued(steps: seq<Step>, k: Key)
    requires Runs(START, steps) && k in After(START, steps).history
    ensures
      var h := After(START, steps).history[k];
      |set i: nat | i < |h| && h[i].cause.Claimed?| <= |set i: nat | i < |h| && h[i].to == Queued|
  {
    hide Connected;
    var h := After(START, steps).history[k];
    CountIs(h, IsStart);
    CountIs(h, IsQueueing);
    assert Those(h, IsStart) == set i: nat | i < |h| && h[i].cause.Claimed?;
    assert Those(h, IsQueueing) == set i: nat | i < |h| && h[i].to == Queued;
    StartHolds();
    RunKeeps(START, steps);
    StartsWithinQueueings(After(START, steps).history[k]);
  }

  /**
   * Two workers are inside the same job only if, after the first one entered, the job failed out of running and was
   * then queued again explicitly, before the second one entered.
   */
  lemma TwoInside(steps: seq<Step>, v: nat, w: nat) returns (i: int, j: int)
    requires Runs(START, steps) && v != w
    requires WorkerOf(After(START, steps), v).Inside? && WorkerOf(After(START, steps), w).Inside?
    requires KeyOf(WorkerOf(After(START, steps), v).p) == KeyOf(WorkerOf(After(START, steps), w).p)
    requires WorkerOf(After(START, steps), v).start <= WorkerOf(After(START, steps), w).start
    ensures
      var s := After(START, steps);
      var k := KeyOf(WorkerOf(s, v).p);
      k in s.history && FailsThenQueued(s.history[k], WorkerOf(s, v).start, i, j, WorkerOf(s, w).start)
  {
    hide Connected, FailsThenQueued;
    StartHolds();
    RunKeeps(START, steps);
    var s := After(START, steps);
    var k := KeyOf(WorkerOf(s, v).p);
    var a, b := WorkerOf(s, v).start, WorkerOf(s, w).start;
    assert EnteredAt(s, v, k, a) && EnteredAt(s, w, k, b);
    ClaimMoves(s.history[k], a);
    ClaimMoves(s.history[k], b);
    i, j := RequeueBetween(s.history[k], a, b);
  }

  lemma ClaimMoves(h: seq<Move>, i: nat)
    requires Connected(h) && i < |h| && h[i].cause.Claimed?
    ensures h[i].from == Queued && h[i].to == Running
  {
  }

  /** A job leaves failed only by being queued again, by reactivation or by cancellation. */
  lemma LeavesFailed(steps: seq<Step>, k: Key, i: nat)
    requires Runs(START, steps) && k in After(START, steps).history
    requires i < |After(START, steps).history[k]|
    requires After(START, steps).history[k][i].from == Failed && After(START, steps).history[k][i].to != Failed
    ensures
      var m := After(START, steps).history[k][i];
      || (m.to == Queued && (m.cause == Enqueued || m.cause == Retried))
      || (m.to == Running && m.cause == Reactivated)
      || (m.to == Cancelled && m.cause == Marked)
  {
    StartHolds();
    RunKeeps(START, steps);
    assert Legal(After(START, steps).history[k][i]);
  }

  /** Between a fence and a later success the job was started again: claimed once more, or reactivated. */
  lemma {:induction false} RestartedBefore(h: seq<Move>, f: int, i: int) returns (r: int)
    requires Connected(h) && 0 <= f < i < |h| && h[f].to == Failed && h[i].to == Succeeded
    ensures f < r < i && h[r].from != Running && h[r].to == Running && (h[r].cause.Claimed? || h[r].cause.Reactivated?)
    decreases i
  {
    hide Connected;
    Neighbours(h, i);
    r := i - 1;
    if h[i].from == Succeeded {
      r := RestartedBefore(h, f, i - 1);
    } else {
      r := RunningSince(h, f, i);
    }
  }

  lemma {:induction false} RunningSince(h: seq<Move>, f: int, i: int) returns (r: int)
    requires Connected(h) && 0 <= f < i < |h| && h[f].to == Failed && h[i].from == Running
    ensures f < r < i && h[r].from != Running && h[r].to == Running && (h[r].cause.Claimed? || h[r].cause.Reactivated?)
    decreases i
  {
    hide Connected;
    Neighbours(h, i);
    r := i - 1;
    if h[r].from == Running { r := RunningSince(h, f, r); }
  }

  /** After a fence no step makes the job succeeded unless it was started again in between. */
  lemma FencedNeedsRestart(steps: seq<Step>, k: Key, f: int, i: int) returns (r: int)
    requires Runs(START, steps) && k in After(START, steps).history
    requires 0 <= f < i < |After(START, steps).history[k]|
    requires After(START, steps).history[k][f].cause.Fenced? && After(START, steps).history[k][i].to == Succeeded
    ensures
      var h := After(START, steps).history[k];
      f < r < i && h[r].from != Running && h[r].to == Running && (h[r].cause.Claimed? || h[r].cause.Reactivated?)
  {
    StartHolds();
    RunKeeps(START, steps);
    var h := After(START, steps).history[k];
    assert Legal(h[f]);
    r := RestartedBefore(h, f, i);
  }

  /** What a returning worker does to its job depends only on the present status, not on whose execution it is. */
  lemma ReturnExactly(s: State, w: nat, now: int)
    requires WorkerOf(s, w).Inside? && KeyOf(WorkerOf(s, w).p) in s.jobs
    ensures Enabled(s, BodyReturns(w, now))
    ensures
      var k := KeyOf(WorkerOf(s, w).p);
      var after := Apply(s, BodyReturns(w, now));
      && k in after.jobs && (after.jobs[k].status == Succeeded <==> s.jobs[k].status == Running || s.jobs[k].status == Succeeded)
      && (s.jobs[k].status == Queued || s.jobs[k].status == Paused ==> after.jobs[k].status == Failed)
      && (s.jobs[k].status == Failed || s.jobs[k].status == Cancelled ==> after.jobs == s.jobs)
  {
  }

  /** The job was started again at write r and has been running, or succeeded, ever since. */
  ghost predicate RestartedAt(h: seq<Move>, r: int) {
    && 0 <= r < |h| && h[r].from != Running && h[r].from != Succeeded && h[r].to == Running
    && (h[r].cause.Claimed? || h[r].cause.Reactivated?)
    && forall i :: r < i < |h| ==> h[i].to == Running || h[i].to == Succeeded
  }

  lemma {:induction false} FindRestart(h: seq<Move>, f: int, i: int) returns (r: int)
    requires Connected(h) && 0 <= f < i < |h| && h[f].to == Failed
    requires forall j :: i <= j < |h| ==> h[j].to == Running || h[j].to == Succeeded
    ensures f < r && RestartedAt(h, r)
    decreases i
  {
    hide Connected;
    Neighbours(h, i);
    if h[i].from == Running || h[i].from == Succeeded {
      r := FindRestart(h, f, i - 1);
    } else {
      r := i;
    }
  }

  /**
   * A worker whose execution was fenced makes the job succeeded when it returns if and only if the job was started
   * again after the fence, by a new claim or a reactivation, and has not failed, been cancelled or queued since.
   */
  lemma FencedReturnExactly(steps: seq<Step>, w: nat, f: int, now: int)
    requires Runs(START, steps) && WorkerOf(After(START, steps), w).Inside?
    requires
      var s := After(START, steps);
      var k := KeyOf(WorkerOf(s, w).p);
      k in s.jobs && WorkerOf(s, w).start < f < |HistoryOf(s, k)| && HistoryOf(s, k)[f].cause.Fenced?
    ensures
      var s := After(START, steps);
      var k := KeyOf(WorkerOf(s, w).p);
      k in Apply(s, BodyReturns(w, now)).jobs &&
      (Apply(s, BodyReturns(w, now)).jobs[k].status == Succeeded <==> exists r :: r > f && RestartedAt(HistoryOf(s, k), r))
  {
    hide Connected, Apply;
    StartHolds();
    RunKeeps(START, steps);
    var s := After(START, steps);
    var k := KeyOf(WorkerOf(s, w).p);
    var h := s.history[k];
    ReturnExactly(s, w, now);
    WriteIsLegal(h, f);
    if s.jobs[k].status == Running || s.jobs[k].status == Succeeded {
      var r := FindRestart(h, f, |h| - 1);
    }
  }

  lemma WriteIsLegal(h: seq<Move>, i: nat)
    requires Connected(h) && i < |h|
    ensures Legal(h[i])
  {
  }

  lemma RunsStep(s: State, step: Step, rest: seq<Step>)
    requires Enabled(s, step) && Runs(Apply(s, step), rest)
    ensures Runs(s, [step] + rest) && After(s, [step] + rest) == After(Apply(s, step), rest)
  {
  }
  /** The history went on from h to g without a start by worker w. */
  ghost predicate NoStartBy(h: seq<Move>, g: seq<Move>, w: nat) {
    h <= g && forall i :: |h| <= i < |g| ==> g[i].cause != Claimed(w)
  }

  /** A delivery that fenced its job is only acknowledged: until its worker takes another one it starts nothing. */
  lemma {:induction false} FencedOnlySettles(s: State, w: nat, steps: seq<Step>, k: Key)
    requires Runs(s, steps) && (WorkerOf(s, w).Acking? || WorkerOf(s, w) == Idle)
    requires forall i :: 0 <= i < |steps| ==> !(steps[i].TakeDelivery? && steps[i].w == w)
    ensures WorkerOf(After(s, steps), w).Acking? || WorkerOf(After(s, steps), w) == Idle
    ensures NoStartBy(HistoryOf(s, k), HistoryOf(After(s, steps), k), w)
    decreases |steps|
  {
    hide Apply, Enabled;
    if steps != [] {
      OneSettles(s, w, steps[0], k);
      FencedOnlySettles(Apply(s, steps[0]), w, steps[1..], k);
    }
  }

  lemma OneSettles(s: State, w: nat, step: Step, k: Key)
    requires Enabled(s, step) && (WorkerOf(s, w).Acking? || WorkerOf(s, w) == Idle)
    requires !(step.TakeDelivery? && step.w == w)
    ensures WorkerOf(Apply(s, step), w).Acking? || WorkerOf(Apply(s, step), w) == Idle
    ensures NoStartBy(HistoryOf(s, k), HistoryOf(Apply(s, step), k), w)
  {
    hide Apply, Enabled;
    HistoryGrows(s, step, k);
    NotStarting(s, w, step);
    var h, g := HistoryOf(s, k), HistoryOf(Apply(s, step), k);
    if g != h { assert g[..|h|] == h; }
    WorkerUntouched(s, w, step);
  }

  lemma NotStarting(s: State, w: nat, step: Step)
    requires Enabled(s, step) && (WorkerOf(s, w).Acking? || WorkerOf(s, w) == Idle)
    ensures !(step.StartJob? && step.w == w)
  {
  }

  lemma WorkerUntouched(s: State, w: nat, step: Step)
    requires Enabled(s, step) && (WorkerOf(s, w).Acking? || WorkerOf(s, w) == Idle)
    requires !(step.TakeDelivery? && step.w == w)
    ensures WorkerOf(Apply(s, step), w).Acking? || WorkerOf(Apply(s, step), w) == Idle
  {
    if ActedBy(step, w) {
      hide HandleError, FinishJob, Write, Q.Ack, Q.Retry;
    } else {
      hide Apply, Enabled;
      OthersUntouched(s, step, w);
    }
  }

  /** The worker that takes the step. */
  predicate ActedBy(step: Step, w: nat) {
    match step
    case TakeDelivery(x, _) => x == w
    case Inspect(x) => x == w
    case TryFence(x, _) => x == w
    case StartJob(x, _) => x == w
    case BodyMarks(x, _, _) => x == w
    case BodyReturns(x, _) => x == w
    case BodyRaises(x, _) => x == w
    case Settle(x) => x == w
    case Crash(x) => x == w
    case _ => false
  }

  /** A step moves no worker but the one that takes it. */
  lemma OthersUntouched(s: State, step: Step, w: nat)
    requires Enabled(s, step) && !ActedBy(step, w)
    ensures WorkerOf(Apply(s, step), w) == WorkerOf(s, w)
  {
    hide HandleError, FinishJob, Allowed, MarkTo, Q.Ack, Q.Retry, Q.Heartbeat, Q.ReclaimOne, Q.Claimed;
    if step.BodyMarks? || step.BodyReturns? || step.BodyRaises? { BodyMovesOwn(s, step.w, WorkerOf(s, step.w).p, step.now, w); }
  }

  lemma BodyMovesOwn(s: State, own: nat, p: Q.Payload, now: int, w: nat)
    requires own != w
    ensures WorkerOf(HandleError(s, own, p, now), w) == WorkerOf(s, w) && WorkerOf(FinishJob(s, own, p, now), w) == WorkerOf(s, w)
  {
  }

  /** A step adds at most one status write to a job's history, and a claim only for the worker that starts it. */
  lemma HistoryGrows(s: State, step: Step, k: Key)
    requires Enabled(s, step)
    ensures OneMove(HistoryOf(s, k), HistoryOf(Apply(s, step), k), step)
  {
    hide Apply, OneMove;
    if step.BodyMarks? || step.BodyReturns? || step.BodyRaises? {
      BodyHistory(s, step, k);
    } else if step.CreateJob? || step.EnqueueJob? || step.RetryJob? || step.CancelQueued? || step.CancelRunning? {
      ClientHistory(s, step, k);
    } else {
      OtherHistory(s, step, k);
    }
  }

  ghost predicate OneMove(h: seq<Move>, g: seq<Move>, step: Step) {
    g == h || (|g| == |h| + 1 && g[..|h|] == h && (g[|h|].cause.Claimed? ==> step.StartJob? && step.w == g[|h|].cause.worker))
  }

  lemma BodyHistory(s: State, step: Step, k: Key)
    requires Enabled(s, step) && (step.BodyMarks? || step.BodyReturns? || step.BodyRaises?)
    ensures OneMove(HistoryOf(s, k), HistoryOf(Apply(s, step), k), step)
  {
    hide HandleError, Allowed;
    ErrorHistory(s, step.w, WorkerOf(s, step.w).p, step.now, k);
  }

  lemma ClientHistory(s: State, step: Step, k: Key)
    requires Enabled(s, step)
    requires step.CreateJob? || step.EnqueueJob? || step.RetryJob? || step.CancelQueued? || step.CancelRunning?
    ensures OneMove(HistoryOf(s, k), HistoryOf(Apply(s, step), k), step)
  {
    hide HandleError, FinishJob, Allowed;
  }

  lemma OtherHistory(s: State, step: Step, k: Key)
    requires Enabled(s, step) && !(step.BodyMarks? || step.BodyReturns? || step.BodyRaises?)
    requires !(step.CreateJob? || step.EnqueueJob? || step.RetryJob? || step.CancelQueued? || step.CancelRunning?)
    ensures OneMove(HistoryOf(s, k), HistoryOf(Apply(s, step), k), step)
  {
    hide HandleError, FinishJob, Allowed;
  }

  lemma ErrorHistory(s: State, w: nat, p: Q.Payload, now: int, k: Key)
    ensures
      var h, g := HistoryOf(s, k), HistoryOf(HandleError(s, w, p, now), k);
      g == h || (|g| == |h| + 1 && g[..|h|] == h && g[|h|].cause == Marked)
  {
  }

  /** Paused is never reached. */
  lemma NeverPaused(steps: seq<Step>, k: Key)
    requires Runs(START, steps) && k in After(START, steps).jobs
    ensures After(START, steps).jobs[k].status != Paused
  {
    hide Connected;
    StartHolds();
    RunKeeps(START, steps);
    NotPausedAt(After(START, steps).history[k]);
  }

  lemma NotPausedAt(h: seq<Move>)
    requires Connected(h)
    ensures Last(h) != Paused
  {
    if h != [] { assert Legal(h[|h| - 1]); }
  }
}
