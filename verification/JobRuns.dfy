/** Runs of the job protocol from its start that show where a property fails. */
module JobRuns {
  import opened Common
  import opened Jobs
  import opened JobProtocol
  import Q = JobQueue

  lemma {:induction false} RunsAppend(s: State, a: seq<Step>, b: seq<Step>)
    requires Runs(s, a) && Runs(After(s, a), b)
    ensures Runs(s, a + b) && After(s, a + b) == After(After(s, a), b)
    decreases |a|
  {
    hide Apply, Enabled;
    if a == [] {
      assert a + b == b;
    } else {
      RunsAppend(Apply(s, a[0]), a[1..], b);
      assert (a + b)[0] == a[0] && (a + b)[1..] == a[1..] + b;
    }
  }

  lemma RunsOne(s: State, step: Step)
    requires Enabled(s, step)
    ensures Runs(s, [step]) && After(s, [step]) == Apply(s, step)
  {
    RunsStep(s, step, []);
    assert [step] + [] == [step];
  }

  lemma RunsTwo(s: State, a: Step, b: Step)
    requires Enabled(s, a) && Enabled(Apply(s, a), b)
    ensures Runs(s, [a, b]) && After(s, [a, b]) == Apply(Apply(s, a), b)
  {
    RunsOne(Apply(s, a), b);
    RunsStep(s, a, [b]);
    assert [a] + [b] == [a, b];
  }

  // ---- Pieces of runs ----

  function FirstAttempt(k: Key, principal: string): Q.Payload { Q.Payload(k.workspace, k.job, 1, principal) }

  /** A worker receives the delivery at the tail of the queue and looks at its job. */
  lemma Receives(s: State, w: nat, rest: seq<Q.Payload>, p: Q.Payload, now: int)
    requires WorkerOf(s, w) == Idle && s.queue.queued == rest + [p] && KeyOf(p) in s.jobs
    ensures Runs(s, [TakeDelivery(w, now), Inspect(w)])
    ensures After(s, [TakeDelivery(w, now), Inspect(w)]) ==
      s.(queue := Q.Queue(rest, [p] + s.queue.processing, s.queue.leases[p := now]), workers := s.workers[w := Inspected(p, true)])
  {
    hide Runs, After;
    RunsTwo(s, TakeDelivery(w, now), Inspect(w));
    assert (rest + [p])[..|rest|] == rest;
    assert s.workers[w := Received(p)][w := Inspected(p, true)] == s.workers[w := Inspected(p, true)];
  }

  /** With a queued job it enters; with a running one it leaves again, fencing the job if this is not the first attempt. */
  lemma Enters(s: State, w: nat, p: Q.Payload, now: int)
    requires WorkerOf(s, w) == Inspected(p, true) && KeyOf(p) in s.jobs && s.jobs[KeyOf(p)].status == Queued
    ensures Runs(s, [TryFence(w, now), StartJob(w, now)])
    ensures
      var k := KeyOf(p);
      After(s, [TryFence(w, now), StartJob(w, now)]) ==
        Write(s, k, Claim(s.jobs[k], now).value, Claimed(w)).(workers := s.workers[w := Inside(p, |HistoryOf(s, k)|)])
  {
    hide Runs, After;
    RunsTwo(s, TryFence(w, now), StartJob(w, now));
    assert s.workers[w := Ready(p)][w := Inside(p, |HistoryOf(s, KeyOf(p))|)] == s.workers[w := Inside(p, |HistoryOf(s, KeyOf(p))|)];
  }

  lemma Fences(s: State, w: nat, p: Q.Payload, now: int)
    requires WorkerOf(s, w) == Inspected(p, true) && KeyOf(p) in s.jobs && s.jobs[KeyOf(p)].status == Running && p.attempt > 1
    ensures Runs(s, [TryFence(w, now), Settle(w)])
    ensures
      var k := KeyOf(p);
      After(s, [TryFence(w, now), Settle(w)]) ==
        Write(s, k, Fence(s.jobs[k], p.attempt, now).value, Fenced(w)).(queue := Q.Ack(s.queue, p), workers := s.workers[w := Idle])
  {
    hide Runs, After;
    RunsTwo(s, TryFence(w, now), Settle(w));
    assert s.workers[w := Acking(p)][w := Idle] == s.workers[w := Idle];
  }

  lemma Declines(s: State, w: nat, p: Q.Payload, now: int)
    requires WorkerOf(s, w) == Inspected(p, true) && KeyOf(p) in s.jobs && s.jobs[KeyOf(p)].status == Running && p.attempt == 1
    ensures Runs(s, [TryFence(w, now), StartJob(w, now)])
    ensures After(s, [TryFence(w, now), StartJob(w, now)]) == s.(workers := s.workers[w := Acking(p)])
  {
    hide Runs, After;
    RunsTwo(s, TryFence(w, now), StartJob(w, now));
    assert s.workers[w := Ready(p)][w := Acking(p)] == s.workers[w := Acking(p)];
  }

  lemma PassesBy(s: State, w: nat, p: Q.Payload, now: int)
    requires WorkerOf(s, w) == Inspected(p, true) && KeyOf(p) in s.jobs && s.jobs[KeyOf(p)].status == Running && p.attempt == 1
    ensures Runs(s, [TryFence(w, now), StartJob(w, now)] + [Settle(w)])
    ensures After(s, [TryFence(w, now), StartJob(w, now)] + [Settle(w)]) == s.(queue := Q.Ack(s.queue, p), workers := s.workers[w := Idle])
  {
    hide Runs, After, Q.Ack, Q.Retry;
    Declines(s, w, p, now);
    var t := s.(workers := s.workers[w := Acking(p)]);
    RunsOne(t, Settle(w));
    RunsAppend(s, [TryFence(w, now), StartJob(w, now)], [Settle(w)]);
    assert s.workers[w := Acking(p)][w := Idle] == s.workers[w := Idle];
  }

  // ---- A worker left inside a fenced job ----

  /** A job that can be retried, newly created under a proper key. */
  predicate Retriable(k: Key, job: Job) {
    k.workspace != "" && k.job != "" && job.status == Created && job.retries < job.maxRetries
  }

  function InsideState(k: Key, p: Q.Payload, job: Job, now: int): State {
    State(map[k := Claim(job.(status := Queued, updatedAt := now), now).value],
          Q.Queue([], [p], map[p := now]), map[0 := Inside(p, 1)],
          map[k := [Move(Created, Queued, Enqueued), Move(Queued, Running, Claimed(0))]])
  }

  lemma Queues(k: Key, principal: string, job: Job, now: int)
    requires job.status == Created
    ensures Runs(START, [CreateJob(k, job), EnqueueJob(k, principal, now)])
    ensures After(START, [CreateJob(k, job), EnqueueJob(k, principal, now)]) ==
      State(map[k := job.(status := Queued, updatedAt := now)], Q.Queue([FirstAttempt(k, principal)], [], map[]), map[],
            map[k := [Move(Created, Queued, Enqueued)]])
  {
    hide Runs, After;
    RunsTwo(START, CreateJob(k, job), EnqueueJob(k, principal, now));
    var s := Apply(START, CreateJob(k, job));
    assert HistoryOf(s, k) == [];
    var t := Apply(s, EnqueueJob(k, principal, now));
    assert t.history[k] == [Move(Created, Queued, Enqueued)];
    assert t.jobs == map[k := job.(status := Queued, updatedAt := now)];
    assert t.history == map[k := t.history[k]];
    assert t.queue.queued == [FirstAttempt(k, principal)];
  }

  /** Created, queued, and entered by worker 0. */
  lemma FirstEnters(k: Key, principal: string, job: Job, now: int) returns (steps: seq<Step>)
    requires Retriable(k, job)
    ensures Runs(START, steps) && After(START, steps) == InsideState(k, FirstAttempt(k, principal), job, now)
  {
    hide Runs, After;
    var p := FirstAttempt(k, principal);
    var create := [CreateJob(k, job), EnqueueJob(k, principal, now)];
    Queues(k, principal, job, now);
    var s := After(START, create);
    assert s.queue.queued == [] + [p];
    Receives(s, 0, [], p, now);
    var take := [TakeDelivery(0, now), Inspect(0)];
    RunsAppend(START, create, take);
    var t := After(s, take);
    Enters(t, 0, p, now);
    var enter := [TryFence(0, now), StartJob(0, now)];
    RunsAppend(START, create + take, enter);
    steps := create + take + enter;
    var u, i := After(START, steps), InsideState(k, p, job, now);
    assert u.jobs == i.jobs;
    assert u.queue == i.queue;
    assert u.workers == i.workers;
    assert u.history[k] == i.history[k] && u.history == i.history;
  }

  function FencedState(k: Key, p: Q.Payload, job: Job, now: int): State {
    State(map[k := Fence(Claim(job.(status := Queued, updatedAt := now), now).value, 2, now).value],
          Q.Queue([], [], map[]), map[0 := Inside(p, 1), 1 := Idle],
          map[k := [Move(Created, Queued, Enqueued), Move(Queued, Running, Claimed(0)), Move(Running, Failed, Fenced(1))]])
  }

  /** Its delivery is then reclaimed, and worker 1 receives it, fences the job and is done. Worker 0 is still inside. */
  lemma ThenFenced(k: Key, principal: string, job: Job, now: int) returns (steps: seq<Step>)
    requires Retriable(k, job)
    ensures Runs(START, steps) && After(START, steps) == FencedState(k, FirstAttempt(k, principal), job, now)
  {
    hide Runs, After;
    var p := FirstAttempt(k, principal);
    var first := FirstEnters(k, principal, job, now);
    var s := InsideState(k, p, job, now);
    var reclaim := [ReclaimStale(p)];
    RunsOne(s, reclaim[0]);
    var t := After(s, reclaim);
    assert t.queue == Q.Queue([] + [Q.Bump(p)], [], map[]) by { assert s.queue.leases - {p} == map[]; }
    Receives(t, 1, [], Q.Bump(p), now);
    var take := [TakeDelivery(1, now), Inspect(1)];
    var u := After(t, take);
    Fences(u, 1, Q.Bump(p), now);
    var fence := [TryFence(1, now), Settle(1)];
    var v, i := After(u, fence), FencedState(k, p, job, now);
    assert v.queue == i.queue by { assert u.queue.leases - {Q.Bump(p)} == map[]; }
    assert v.jobs == i.jobs;
    assert v.workers == i.workers;
    assert v.history[k] == i.history[k] && v.history == i.history;
    RunsAppend(t, take, fence);
    RunsAppend(s, reclaim, take + fence);
    RunsAppend(START, first, reclaim + (take + fence));
    steps := first + (reclaim + (take + fence));
  }

  // ---- A late return ----

  /** The job is retried and another worker enters it; the first worker is still inside. */
  lemma RetriedAndEntered(s: State, k: Key, w: nat, principal: string, now: int) returns (steps: seq<Step>)
    requires k in s.jobs && s.jobs[k].status == Failed && s.jobs[k].retries < s.jobs[k].maxRetries
    requires WorkerOf(s, w) == Idle && s.queue.queued == []
    ensures Runs(s, steps)
    ensures
      var p := FirstAttempt(k, principal);
      var t := After(s, steps);
      && k in t.jobs && t.jobs[k].status == Running
      && t.queue == Q.Queue([], [p] + s.queue.processing, s.queue.leases[p := now])
      && t.workers.Keys == s.workers.Keys + {w} && WorkerOf(t, w).Inside? && WorkerOf(t, w).p == p
      && forall x :: x != w ==> WorkerOf(t, x) == WorkerOf(s, x)
  {
    hide Runs, After;
    var p := FirstAttempt(k, principal);
    var retry := [RetryJob(k, principal, now)];
    RunsOne(s, retry[0]);
    var r := Apply(s, retry[0]);
    hide Apply, Enabled;
    assert r.queue.queued == [] + [p] && r.workers == s.workers && r.jobs[k].status == Queued;
    Receives(r, w, [], p, now);
    var take := [TakeDelivery(w, now), Inspect(w)];
    Enters(After(r, take), w, p, now);
    var enter := [TryFence(w, now), StartJob(w, now)];
    RunsAppend(r, take, enter);
    RunsAppend(s, retry, take + enter);
    steps := retry + (take + enter);
  }

  /** A worker inside a failed job ends it as succeeded once the job is retried and another worker is inside. */
  lemma LateReturnEndsRetriedJob(s: State, w: nat, other: nat, principal: string, now: int) returns (steps: seq<Step>)
    requires WorkerOf(s, w).Inside? && WorkerOf(s, other) == Idle && w != other && s.queue.queued == []
    requires
      var k := KeyOf(WorkerOf(s, w).p);
      k in s.jobs && s.jobs[k].status == Failed && s.jobs[k].retries < s.jobs[k].maxRetries
    ensures Runs(s, steps) && steps != [] && steps[|steps| - 1] == BodyReturns(w, now)
    ensures
      var k, p := KeyOf(WorkerOf(s, w).p), FirstAttempt(KeyOf(WorkerOf(s, w).p), principal);
      var t := After(s, steps);
      && k in t.jobs && t.jobs[k].status == Succeeded
      && WorkerOf(t, other).Inside? && WorkerOf(t, other).p == p && WorkerOf(t, w) == Acking(WorkerOf(s, w).p)
      && t.queue == Q.Queue([], [p] + s.queue.processing, s.queue.leases[p := now])
  {
    hide Runs, After;
    var k := KeyOf(WorkerOf(s, w).p);
    var more := RetriedAndEntered(s, k, other, principal, now);
    var t := After(s, more);
    RunsOne(t, BodyReturns(w, now));
    RunsAppend(s, more, [BodyReturns(w, now)]);
    steps := more + [BodyReturns(w, now)];
  }

  /** From the start: worker 0 was fenced, and its return ends the job that worker 2 is executing. */
  lemma FencedWorkerEndsJob(k: Key, principal: string, job: Job, now: int) returns (steps: seq<Step>)
    requires Retriable(k, job)
    ensures Runs(START, steps) && steps != [] && steps[|steps| - 1] == BodyReturns(0, now)
    ensures
      var p := FirstAttempt(k, principal);
      var t := After(START, steps);
      && k in t.jobs && t.jobs[k].status == Succeeded && WorkerOf(t, 2).Inside? && WorkerOf(t, 2).p == p
      && WorkerOf(t, 0) == Acking(p) && t.queue == Q.Queue([], [p], map[p := now])
  {
    hide Runs, After;
    var first := ThenFenced(k, principal, job, now);
    var s := FencedState(k, FirstAttempt(k, principal), job, now);
    var more := LateReturnEndsRetriedJob(s, 0, 2, principal, now);
    RunsAppend(START, first, more);
    steps := first + more;
  }

  // ---- A late acknowledgement ----

  /**
   * From the start, with distinct payloads in flight: worker 0's delivery was reclaimed, the job was retried, and the
   * late acknowledgement of worker 0 takes the lease and the processing entry of worker 2, which is inside the job.
   */
  lemma LateAckTakesLease(k: Key, principal: string, job: Job, now: int) returns (steps: seq<Step>)
    requires Retriable(k, job)
    ensures Runs(START, steps) && Runs(START, steps + [Settle(0)])
    ensures
      var p := FirstAttempt(k, principal);
      var s, t := After(START, steps), After(START, steps + [Settle(0)]);
      && Q.Sound(s.queue) && s.queue.processing == [p] && p in s.queue.leases
      && WorkerOf(s, 2) == WorkerOf(t, 2) && WorkerOf(t, 2).Inside? && WorkerOf(t, 2).p == p
      && t.queue == Q.Queue([], [], map[])
  {
    hide Runs, After;
    var p := FirstAttempt(k, principal);
    steps := FencedWorkerEndsJob(k, principal, job, now);
    var s := After(START, steps);
    RunsOne(s, Settle(0));
    RunsAppend(START, steps, [Settle(0)]);
    assert Q.InFlight(s.queue) == multiset{p};
    assert s.queue.leases - {p} == map[];
  }

  /**
   * From the start: a job queued twice gives two equal deliveries; the worker that finds the job already running
   * acknowledges, and the one inside is left without a lease, so that nothing would reclaim its delivery.
   */
  lemma SharedLeaseLost(k: Key, principal: string, job: Job, now: int) returns (steps: seq<Step>)
    requires Retriable(k, job)
    ensures Runs(START, steps)
    ensures
      var p := FirstAttempt(k, principal);
      var t := After(START, steps);
      WorkerOf(t, 0).Inside? && WorkerOf(t, 0).p == p && t.queue == Q.Queue([], [p], map[])
  {
    hide Runs, After;
    var p := FirstAttempt(k, principal);
    var create := [CreateJob(k, job), EnqueueJob(k, principal, now)];
    Queues(k, principal, job, now);
    var s1 := After(START, create);
    var again := [EnqueueJob(k, principal, now)];
    RunsOne(s1, again[0]);
    RunsAppend(START, create, again);
    var s2 := After(s1, again);
    assert s2.queue.queued == [p] + [p];
    var take0, enter0 := [TakeDelivery(0, now), Inspect(0)], [TryFence(0, now), StartJob(0, now)];
    Receives(s2, 0, [p], p, now);
    RunsAppend(START, create + again, take0);
    var s3 := After(s2, take0);
    Enters(s3, 0, p, now);
    RunsAppend(START, create + again + take0, enter0);
    var s4 := After(s3, enter0);
    assert s4.queue.queued == [] + [p];
    var take1, pass1 := [TakeDelivery(1, now), Inspect(1)], [TryFence(1, now), StartJob(1, now)] + [Settle(1)];
    Receives(s4, 1, [], p, now);
    RunsAppend(START, create + again + take0 + enter0, take1);
    var s5 := After(s4, take1);
    PassesBy(s5, 1, p, now);
    RunsAppend(START, create + again + take0 + enter0 + take1, pass1);
    steps := create + again + take0 + enter0 + take1 + pass1;
    assert s5.queue.leases - {p} == map[];
    assert s5.queue.processing == [p, p] && Q.RemoveOne([p, p], p) == [p];
  }

  /**
   * From the start: a second worker comes to hold the payload of attempt 2 without any enqueue or retry of the job after
   * the first one took it, because the worker of attempt 1, reclaimed meanwhile, gives its delivery back.
   */
  lemma GivenBackTwice(k: Key, principal: string, job: Job, now: int) returns (before: seq<Step>, steps: seq<Step>)
    requires Retriable(k, job)
    ensures Runs(START, before) && Runs(After(START, before), steps)
    ensures forall i :: 0 <= i < |steps| ==> !steps[i].EnqueueJob? && !steps[i].RetryJob?
    ensures
      var p := Q.Bump(FirstAttempt(k, principal));
      var s, t := After(START, before), After(After(START, before), steps);
      && WorkerOf(s, 1) == Inspected(p, true) && WorkerOf(s, 2) == Idle && p !in s.queue.queued
      && WorkerOf(t, 1) == Inspected(p, true) && WorkerOf(t, 2) == Inspected(p, true)
  {
    hide Runs, After;
    var p, q := FirstAttempt(k, principal), Q.Bump(FirstAttempt(k, principal));
    var first := FirstEnters(k, principal, job, now);
    var s := InsideState(k, p, job, now);
    var end := [Finalize(k, Succeeded, now), ReclaimStale(p)];
    RunsTwo(s, end[0], end[1]);
    var e := After(s, end);
    assert e.queue == Q.Queue([] + [q], [], map[]) by { assert s.queue.leases - {p} == map[]; }
    var take1 := [TakeDelivery(1, now), Inspect(1)];
    Receives(e, 1, [], q, now);
    RunsAppend(s, end, take1);
    RunsAppend(START, first, end + take1);
    before := first + (end + take1);
    var u := After(e, take1);
    GivesBack(u, 0, p, now);
    var give := [BodyRaises(0, now), Settle(0)];
    var v := After(u, give);
    assert v.queue.queued == [] + [q];
    var take2 := [TakeDelivery(2, now), Inspect(2)];
    Receives(v, 2, [], q, now);
    RunsAppend(u, give, take2);
    steps := give + take2;
  }

  /** A body that raises in a job already succeeded: failing it is refused and the delivery is given back. */
  lemma GivesBack(s: State, w: nat, p: Q.Payload, now: int)
    requires WorkerOf(s, w).Inside? && WorkerOf(s, w).p == p && KeyOf(p) in s.jobs && s.jobs[KeyOf(p)].status == Succeeded
    ensures Runs(s, [BodyRaises(w, now), Settle(w)])
    ensures After(s, [BodyRaises(w, now), Settle(w)]) == s.(queue := Q.Retry(s.queue, p), workers := s.workers[w := Idle])
  {
    hide Runs, After, Q.Retry, Q.Ack;
    RunsTwo(s, BodyRaises(w, now), Settle(w));
    assert s.workers[w := Retrying(p)][w := Idle] == s.workers[w := Idle];
  }
}
