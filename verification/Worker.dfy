/** One worker iteration against the queue and the job store, without interference from others. */
module Worker {
  import opened Common
  import opened Jobs
  import Q = JobQueue

  /** How the body of a job ends. */
  datatype Body = Returns | Raises | MarksFailed | MarksCancelled

  datatype Report = NothingQueued | LeaseExpired(receipt: Q.Payload) | Missing(receipt: Q.Payload) | Completed(receipt: Q.Payload)

  /** run_job: a job that is not queued is left alone; a queued one is claimed and always ends in the state its body asks for. */
  method RunJob(store: JobStore, id: string, body: Body, now: int) returns (raised: bool)
    modifies store
    ensures !raised
    ensures store.jobs.Keys == old(store.jobs).Keys
    ensures forall x :: x in store.jobs && x != id ==> store.jobs[x] == old(store.jobs)[x]
    ensures id in store.jobs ==>
      if old(store.jobs)[id].status == Queued then
        store.jobs[id].status == (if body.Returns? then Succeeded else if body.MarksCancelled? then Cancelled else Failed)
      else store.jobs[id] == old(store.jobs)[id]
  {
    raised := false;
    var claimed := store.ClaimForExecution(id, now);
    if claimed.None? { return; }
    if body == MarksFailed {
      store.jobs := Written(store.jobs, id, j => MarkFailed(j, "body", now));
    } else if body == MarksCancelled {
      store.jobs := Written(store.jobs, id, j => MarkCancelled(j, now));
    }
    if body == Raises {
      raised := MarkFailed(store.jobs[id], "raised", now).None?;
      store.jobs := Written(store.jobs, id, j => MarkFailed(j, "raised", now));
    } else if store.jobs[id].status != Failed && store.jobs[id].status != Cancelled {
      store.jobs := Written(store.jobs, id, j => MarkSucceeded(j, now));
    }
  }

  /**
   * run_once: reclaim, take one delivery, fence, run, acknowledge. A delivery that fences its job does not run it, and
   * every delivery taken is released.
   */
  method RunOnce(queue: Q.RedisJobQueue, store: JobStore, leaseSeconds: int, body: Body, now: int)
    returns (report: Report, ghost order: seq<Q.Payload>)
    modifies queue, store
    ensures
      var reclaimed := Q.ReclaimAll(old(queue.View()), order);
      if report.NothingQueued? then reclaimed.queued == [] && queue.View() == reclaimed && store.jobs == old(store.jobs)
      else
        && reclaimed.queued != [] && report.receipt == reclaimed.queued[|reclaimed.queued| - 1]
        && queue.View() == Q.Ack(Q.Claimed(reclaimed, now), report.receipt)
    ensures forall p :: p in order <==> p in old(queue.leases) && now - old(queue.leases)[p] > (if leaseSeconds > 1 then leaseSeconds else 1)
    ensures report.LeaseExpired? <==>
      && !report.NothingQueued?
      && report.receipt.attempt > 1
      && report.receipt.job in old(store.jobs) && old(store.jobs)[report.receipt.job].status == Running
    ensures report.LeaseExpired? ==>
      store.jobs == Written(old(store.jobs), report.receipt.job, j => Fence(j, report.receipt.attempt, now))
    ensures !report.NothingQueued? ==>
      forall x :: x in old(store.jobs) && x != report.receipt.job ==> x in store.jobs && store.jobs[x] == old(store.jobs)[x]
    ensures report.Missing? ==> report.receipt.job !in old(store.jobs) && store.jobs == old(store.jobs)
    ensures report.Completed? ==>
      && report.receipt.job in store.jobs && report.receipt.job in old(store.jobs)
      && store.jobs[report.receipt.job].status ==
           (if old(store.jobs)[report.receipt.job].status != Queued then old(store.jobs)[report.receipt.job].status
            else if body.Returns? then Succeeded else if body.MarksCancelled? then Cancelled else Failed)
  {
    var count;
    count, order := queue.ReclaimStale(leaseSeconds, now);
    var taken := queue.Claim(now);
    if taken.None? { return NothingQueued, order; }
    var receipt := taken.value;
    var found := receipt.job in store.jobs;
    var fenced := store.FenceReclaimed(receipt.job, receipt.attempt, now);
    if fenced.Some? {
      queue.Acknowledge(receipt);
      return LeaseExpired(receipt), order;
    }
    if !found {
      queue.Acknowledge(receipt);
      return Missing(receipt), order;
    }
    var raised := RunJob(store, receipt.job, body, now);
    queue.Acknowledge(receipt);
    report := Completed(receipt);
  }
}
