/** What the queue guarantees to the workers of the job protocol, over every run. */
module Deliveries {
  import opened Common
  import opened Jobs
  import opened JobProtocol
  import Q = JobQueue

  /** The queue operation a step of the protocol makes, if any. */
  function OpOf(s: State, step: Step): Option<Q.Op>
    requires Enabled(s, step)
  {
    match step
    case EnqueueJob(k, principal, _) => Some(Q.EnqueueOp(Q.Payload(k.workspace, k.job, 1, principal)))
    case RetryJob(k, principal, _) => Some(Q.EnqueueOp(Q.Payload(k.workspace, k.job, 1, principal)))
    case ReclaimStale(p) => Some(Q.ReclaimOp(p))
    case TakeDelivery(_, now) => Some(Q.ClaimOp(now))
    case Settle(w) => Some(if WorkerOf(s, w).Acking? then Q.AckOp(WorkerOf(s, w).p) else Q.RetryOp(WorkerOf(s, w).p))
    case Beat(w, now) => Some(Q.BeatOp(WorkerOf(s, w).p, now))
    case _ => None
  }

  lemma QueueStep(s: State, step: Step)
    requires Enabled(s, step)
    ensures
      match OpOf(s, step)
      case None => Apply(s, step).queue == s.queue
      case Some(op) => Q.Enabled(s.queue, op) && Apply(s, step).queue == Q.Apply(s.queue, op)
  {
    hide Allowed, MarkTo, MarkSucceeded, MarkFailed, Q.Retry, Q.Ack, Q.Heartbeat, Q.ReclaimOne, Q.Claimed;
  }

  /** The operations of a run, in order. */
  ghost function OpsOf(s: State, steps: seq<Step>): seq<Q.Op>
    requires Runs(s, steps)
    decreases |steps|
  {
    if steps == [] then [] else
      var rest := OpsOf(Apply(s, steps[0]), steps[1..]);
      if OpOf(s, steps[0]).Some? then [OpOf(s, steps[0]).value] + rest else rest
  }

  /** Every run of the protocol is a run of the queue. */
  lemma {:induction false} QueueFollows(s: State, steps: seq<Step>)
    requires Runs(s, steps)
    ensures Q.Runs(s.queue, OpsOf(s, steps)) && Q.After(s.queue, OpsOf(s, steps)) == After(s, steps).queue
    decreases |steps|
  {
    hide Apply, Enabled, OpOf, Q.Apply, Q.Enabled;
    if steps != [] {
      QueueStep(s, steps[0]);
      QueueFollows(Apply(s, steps[0]), steps[1..]);
      var rest := OpsOf(Apply(s, steps[0]), steps[1..]);
      if OpOf(s, steps[0]).Some? {
        var op := OpOf(s, steps[0]).value;
        assert ([op] + rest)[1..] == rest;
      }
    }
  }

  /** Each operation comes from a step of the run. */
  lemma {:induction false} OpFromStep(s: State, steps: seq<Step>, i: nat) returns (j: nat)
    requires Runs(s, steps) && i < |OpsOf(s, steps)|
    ensures j < |steps| && Runs(s, steps[..j]) && Enabled(After(s, steps[..j]), steps[j])
    ensures OpOf(After(s, steps[..j]), steps[j]) == Some(OpsOf(s, steps)[i])
    decreases |steps|
  {
    hide Apply, Enabled, OpOf;
    if OpOf(s, steps[0]).Some? && i == 0 {
      j := 0;
      assert steps[..0] == [];
    } else {
      var n := OpFromStep(Apply(s, steps[0]), steps[1..], if OpOf(s, steps[0]).Some? then i - 1 else i);
      j := n + 1;
      assert steps[..j] == [steps[0]] + steps[1..][..n];
      RunsStep(s, steps[0], steps[1..][..n]);
    }
  }

  // ---- Attempts are counted from one ----

  ghost predicate Numbered(s: State) {
    && (forall p :: p in s.queue.queued || p in s.queue.processing || p in s.queue.leases ==> p.attempt >= 1)
    && (forall w :: WorkerOf(s, w) != Idle ==> WorkerOf(s, w).p.attempt >= 1)
  }

  lemma {:induction false} RemoveOneMember(s: seq<Q.Payload>, p: Q.Payload, x: Q.Payload)
    requires x in Q.RemoveOne(s, p)
    ensures x in s
  {
    if s[0] != p && x != s[0] { RemoveOneMember(s[1..], p, x); }
  }

  ghost predicate AllNumbered(q: Q.Queue) {
    forall p :: p in q.queued || p in q.processing || p in q.leases ==> p.attempt >= 1
  }

  lemma OpNumbered(q: Q.Queue, op: Q.Op)
    requires Q.Enabled(q, op) && AllNumbered(q) && (op.EnqueueOp? ==> op.p.attempt >= 1)
    ensures AllNumbered(Q.Apply(q, op))
  {
    forall p, x | x in Q.RemoveOne(q.processing, p) ensures x in q.processing { RemoveOneMember(q.processing, p, x); }
  }

  /** A worker's payload is its own from before, or what it takes from the queue. */
  lemma HeldBefore(s: State, step: Step, w: nat)
    requires Enabled(s, step) && WorkerOf(Apply(s, step), w) != Idle
    ensures
      || (WorkerOf(s, w) != Idle && WorkerOf(s, w).p == WorkerOf(Apply(s, step), w).p)
      || (step.TakeDelivery? && step.w == w && WorkerOf(Apply(s, step), w).p in s.queue.queued)
  {
    if ActedBy(step, w) {
      hide Allowed, MarkTo, MarkSucceeded, MarkFailed, Q.Retry, Q.Ack, Q.Heartbeat, Q.ReclaimOne, Q.Claimed;
    } else {
      hide Apply, Enabled;
      OthersUntouched(s, step, w);
    }
  }

  lemma StepNumbered(s: State, step: Step)
    requires Enabled(s, step) && Numbered(s)
    ensures Numbered(Apply(s, step))
  {
    hide Apply, Enabled, Q.Apply, Q.Enabled;
    QueueStep(s, step);
    if OpOf(s, step).Some? { OpNumbered(s.queue, OpOf(s, step).value); }
    forall w | WorkerOf(Apply(s, step), w) != Idle ensures WorkerOf(Apply(s, step), w).p.attempt >= 1 { HeldBefore(s, step, w); }
  }

  lemma {:induction false} RunNumbered(s: State, steps: seq<Step>)
    requires Numbered(s) && Runs(s, steps)
    ensures Numbered(After(s, steps))
    decreases |steps|
  {
    hide Numbered, Apply, Enabled;
    if steps != [] {
      StepNumbered(s, steps[0]);
      RunNumbered(Apply(s, steps[0]), steps[1..]);
    }
  }

  // ---- Settling a delivery ----

  ghost predicate Settling(s: State, w: nat, p: Q.Payload) { WorkerOf(s, w) == Acking(p) || WorkerOf(s, w) == Retrying(p) }

  ghost predicate Holds(s: State, w: nat, p: Q.Payload) { WorkerOf(s, w) != Idle && WorkerOf(s, w).p == p }

  /** Another worker has the same payload, and it is leased. */
  ghost predicate SharedWith(s: State, w: nat, x: nat) {
    x != w && WorkerOf(s, w) != Idle && Holds(s, x, WorkerOf(s, w).p) && WorkerOf(s, w).p in s.queue.leases
  }

  ghost predicate LeaseKept(s: State, t: State, x: nat) {
    WorkerOf(s, x) != Idle ==>
      var p := WorkerOf(s, x).p;
      (p in s.queue.leases <==> p in t.queue.leases) && (p in s.queue.leases ==> t.queue.leases[p] == s.queue.leases[p])
  }

  /** Settling leaves the lease of every other worker as it was if and only if none of them shares the payload. */
  lemma SettleKeepsLeasesExactly(s: State, w: nat)
    requires Enabled(s, Settle(w))
    ensures (forall x :: x != w ==> LeaseKept(s, Apply(s, Settle(w)), x)) <==> forall x :: !SharedWith(s, w, x)
  {
    var p := WorkerOf(s, w).p;
    var t := Apply(s, Settle(w));
    assert t.queue.leases == s.queue.leases - {p};
    forall x | x != w ensures LeaseKept(s, t, x) <==> !SharedWith(s, w, x) { }
    if x :| SharedWith(s, w, x) { assert !LeaseKept(s, t, x); }
  }

  /**
   * A worker whose delivery went out of flight at `s` (it was reclaimed) settles it late: that changes no lease if and
   * only if nobody took the very same payload again since and still has it. With matching leases the acknowledgement
   * then changes nothing at all in the queue.
   */
  lemma LateSettleExactly(s: State, steps: seq<Step>, w: nat, p: Q.Payload)
    requires Runs(s, steps) && Q.Gone(s.queue, p) && Settling(After(s, steps), w, p)
    ensures Q.Runs(s.queue, OpsOf(s, steps))
    ensures
      var t := After(s, steps);
      var again := Q.TakenSince(s.queue, OpsOf(s, steps), p);
      && (Apply(t, Settle(w)).queue.leases == t.queue.leases <==> !again)
      && (WorkerOf(t, w).Acking? && Q.Leased(t.queue) ==> (Apply(t, Settle(w)).queue == t.queue <==> !again))
  {
    QueueFollows(s, steps);
    var t, ops := After(s, steps), OpsOf(s, steps);
    Q.LeasedAfter(s.queue, ops, p);
    assert Apply(t, Settle(w)).queue.leases == t.queue.leases - {p};
    if p !in t.queue.leases { assert t.queue.leases - {p} == t.queue.leases; }
    if Q.Leased(t.queue) { Q.LateAckRemovesNothing(s.queue, p, ops); }
  }

  /** The step queues this very payload: explicitly, or as the next attempt of a delivery given back. */
  ghost predicate QueuesAgain(s: State, step: Step, p: Q.Payload)
    requires Enabled(s, step)
  {
    if p.attempt == 1 then
      && (step.EnqueueJob? || step.RetryJob?)
      && step.k == KeyOf(p) && step.principal == p.principal
    else
      || (step.ReclaimStale? && Q.Bump(step.p) == p)
      || (step.Settle? && WorkerOf(s, step.w).Retrying? && Q.Bump(WorkerOf(s, step.w).p) == p)
  }

  /**
   * A payload that went out of flight is taken again only if some step in between queued it again: for a first attempt
   * an explicit enqueue or retry of that job by that principal, otherwise the attempt before it given back.
   */
  lemma TakenAgainWasQueued(before: seq<Step>, steps: seq<Step>, p: Q.Payload) returns (j: nat)
    requires Runs(START, before) && Runs(After(START, before), steps)
    requires Q.Gone(After(START, before).queue, p)
    requires Q.Runs(After(START, before).queue, OpsOf(After(START, before), steps))
    requires Q.TakenSince(After(START, before).queue, OpsOf(After(START, before), steps), p)
    ensures
      var s := After(START, before);
      && j < |steps| && Runs(s, steps[..j]) && Enabled(After(s, steps[..j]), steps[j])
      && QueuesAgain(After(s, steps[..j]), steps[j], p)
  {
    hide Apply, Q.Apply;
    var s := After(START, before);
    var ops := OpsOf(s, steps);
    var i := Q.TakenWasPushed(s.queue, ops, p);
    j := OpFromStep(s, steps, i);
    ReachableNumbered(before);
    RunNumbered(s, steps[..j]);
    PushQueues(After(s, steps[..j]), steps[j], p);
  }

  /**
   * Two workers come to hold one payload only if it was queued again after the first one took it: from any state with
   * no further copy in the queue, a worker that does not hold the payload gets it only behind a step that queues it.
   */
  lemma {:induction false} SharedWasQueued(s: State, steps: seq<Step>, x: nat, p: Q.Payload) returns (j: nat)
    requires Numbered(s) && Runs(s, steps) && p !in s.queue.queued && !Holds(s, x, p) && Holds(After(s, steps), x, p)
    ensures j < |steps| && Runs(s, steps[..j]) && Enabled(After(s, steps[..j]), steps[j])
    ensures QueuesAgain(After(s, steps[..j]), steps[j], p)
    decreases |steps|
  {
    hide Numbered, Apply, Enabled, QueuesAgain;
    if QueuesAgain(s, steps[0], p) {
      j := 0;
      assert steps[..0] == [];
    } else {
      StillUnqueued(s, steps[0], p);
      if Holds(Apply(s, steps[0]), x, p) { HeldBefore(s, steps[0], x); }
      StepNumbered(s, steps[0]);
      var n := SharedWasQueued(Apply(s, steps[0]), steps[1..], x, p);
      j := n + 1;
      assert steps[..j] == [steps[0]] + steps[1..][..n];
      RunsStep(s, steps[0], steps[1..][..n]);
    }
  }

  lemma StillUnqueued(s: State, step: Step, p: Q.Payload)
    requires Enabled(s, step) && Numbered(s) && p !in s.queue.queued && !QueuesAgain(s, step, p)
    ensures p !in Apply(s, step).queue.queued
  {
    hide Apply, Enabled, Numbered, QueuesAgain, OpOf;
    QueueStep(s, step);
    if OpOf(s, step).Some? {
      Q.QueuedStep(s.queue, OpOf(s, step).value, p);
      if Q.Pushes(OpOf(s, step).value, p) { PushQueues(s, step, p); }
    }
  }

  /** Every reachable state counts attempts from one. */
  lemma ReachableNumbered(steps: seq<Step>)
    requires Runs(START, steps)
    ensures Numbered(After(START, steps))
  {
    hide Apply, Enabled;
    assert Numbered(START);
    RunNumbered(START, steps);
  }

  lemma PushQueues(s: State, step: Step, p: Q.Payload)
    requires Enabled(s, step) && Numbered(s) && OpOf(s, step).Some? && Q.Pushes(OpOf(s, step).value, p)
    ensures QueuesAgain(s, step, p)
  {
  }
}
