/** What a lease is worth: how long a delivery stays with the worker that took it. */
module Leases {
  import opened Common
  import opened JobQueue

  /** The operation takes the payload, or renews its lease. */
  predicate Touches(q: Queue, op: Op, p: Payload) {
    Takes(q, op, p) || (op.BeatOp? && op.p == p && p in q.leases)
  }

  /** None of the operations takes, renews or releases the payload. */
  ghost predicate Untouched(q: Queue, ops: seq<Op>, p: Payload)
    requires Runs(q, ops)
    decreases |ops|
  {
    ops == [] || (!Touches(q, ops[0], p) && !Releases(ops[0], p) && Untouched(Apply(q, ops[0]), ops[1..], p))
  }

  lemma TouchedAt(q: Queue, op: Op, p: Payload)
    requires Enabled(q, op) && Touches(q, op, p) && (p in q.leases ==> p in q.processing)
    ensures p in Apply(q, op).leases && Apply(q, op).leases[p] == op.now && p in Apply(q, op).processing
  {
  }

  lemma {:induction false} OthersStay(s: seq<Payload>, other: Payload, p: Payload)
    requires p in s && p != other
    ensures p in RemoveOne(s, other)
  {
    if s[0] != other && s[0] != p { OthersStay(s[1..], other, p); }
  }

  lemma UntouchedStep(q: Queue, op: Op, p: Payload)
    requires Enabled(q, op) && !Touches(q, op, p) && !Releases(op, p) && p in q.leases && p in q.processing
    ensures p in Apply(q, op).leases && Apply(q, op).leases[p] == q.leases[p] && p in Apply(q, op).processing
  {
    match op
    case AckOp(x) => OthersStay(q.processing, x, p);
    case RetryOp(x) => OthersStay(q.processing, x, p);
    case ReclaimOp(x) => OthersStay(q.processing, x, p);
    case ClaimOp(_) => assert p in [q.queued[|q.queued| - 1]] + q.processing;
    case _ =>
  }

  lemma {:induction false} UntouchedKeeps(q: Queue, ops: seq<Op>, p: Payload)
    requires Runs(q, ops) && Untouched(q, ops, p) && p in q.leases && p in q.processing
    ensures p in After(q, ops).leases && After(q, ops).leases[p] == q.leases[p] && p in After(q, ops).processing
    decreases |ops|
  {
    hide Apply, Enabled, Touches, Releases;
    if ops != [] {
      UntouchedStep(q, ops[0], p);
      UntouchedKeeps(Apply(q, ops[0]), ops[1..], p);
    }
  }

  /**
   * Once a worker took a delivery or renewed its lease, a reclaim leaves it alone for as many seconds as the allowed age,
   * at least one, whatever happened to other deliveries in between. After that it is gone from the worker, and queued
   * again one attempt higher if it names a job. `order` is any order in which the reclaim may walk over the leases.
   */
  lemma ReclaimedByAge(q: Queue, op: Op, ops: seq<Op>, p: Payload, maxAge: int, now: int, order: seq<Payload>)
    requires Enabled(q, op) && Touches(q, op, p) && (p in q.leases ==> p in q.processing)
    requires Runs(Apply(q, op), ops) && Untouched(Apply(q, op), ops, p)
    requires Distinct(order)
    requires
      var leases := After(Apply(q, op), ops).leases;
      forall x :: x in order <==> x in leases && now - leases[x] > if maxAge > 1 then maxAge else 1
    ensures
      var before := After(Apply(q, op), ops);
      var after := ReclaimAll(before, order);
      var patience := if maxAge > 1 then maxAge else 1;
      if now - op.now <= patience then
        p in after.leases && after.leases[p] == op.now && p in after.processing
      else
        && p !in after.leases
        && (p !in after.processing <==> multiset(before.processing)[p] <= 1)
        && (p.workspace != "" && p.job != "" ==> Payload(p.workspace, p.job, p.attempt + 1, p.principal) in after.queued)
  {
    hide ReclaimAll, Apply, Enabled, RemoveOne, Touches, Untouched, Runs, After;
    TouchedAt(q, op, p);
    UntouchedKeeps(Apply(q, op), ops, p);
    AgeDecides(After(Apply(q, op), ops), p, maxAge, now, order);
  }

  /** What a reclaim does to one leased delivery. */
  lemma AgeDecides(before: Queue, p: Payload, maxAge: int, now: int, order: seq<Payload>)
    requires p in before.leases && p in before.processing && Distinct(order)
    requires forall x :: x in order <==> x in before.leases && now - before.leases[x] > if maxAge > 1 then maxAge else 1
    ensures
      var after := ReclaimAll(before, order);
      if now - before.leases[p] <= if maxAge > 1 then maxAge else 1 then
        p in after.leases && after.leases[p] == before.leases[p] && p in after.processing
      else
        && p !in after.leases
        && (p !in after.processing <==> multiset(before.processing)[p] <= 1)
        && (HasJob(p) ==> Bump(p) in after.queued)
  {
    hide ReclaimAll, RemoveOne;
    ReclaimLeases(before, order);
    ReclaimProcessing(before, order);
    ReclaimQueued(before, order);
    var after := ReclaimAll(before, order);
    DistinctCount(order, p);
    CountMember(order, p);
    CountMember(before.processing, p);
    CountMember(after.processing, p);
    if p in order && HasJob(p) {
      BumpedHolds(order, p);
      CountMember(Bumped(order), Bump(p));
      CountMember(after.queued, Bump(p));
    }
  }

  lemma {:induction false} BumpedHolds(order: seq<Payload>, p: Payload)
    requires p in order && HasJob(p)
    ensures Bump(p) in Bumped(order)
  {
    var front, last := order[..|order| - 1], order[|order| - 1];
    assert order == front + [last];
    if p != last { BumpedHolds(front, p); }
  }
}
