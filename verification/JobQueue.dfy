/** The Redis job queue: two lists and a lease table. */
module JobQueue {
  import opened Common

  datatype Payload = Payload(workspace: string, job: string, attempt: nat, principal: string)

  /** Lists have their head at index 0: pushes go to the head, claims take from the tail. */
  datatype Queue = Queue(queued: seq<Payload>, processing: seq<Payload>, leases: map<Payload, int>)

  /** Removes the first occurrence, as LREM with count 1. */
  function RemoveOne(s: seq<Payload>, p: Payload): seq<Payload> {
    if s == [] then [] else if s[0] == p then s[1..] else [s[0]] + RemoveOne(s[1..], p)
  }

  function Bump(p: Payload): Payload { p.(attempt := p.attempt + 1) }

  function Push(q: Queue, p: Payload): Queue { q.(queued := [p] + q.queued) }

  function Claimed(q: Queue, now: int): Queue
    requires q.queued != []
  {
    var p := q.queued[|q.queued| - 1];
    Queue(q.queued[..|q.queued| - 1], [p] + q.processing, q.leases[p := now])
  }

  function Ack(q: Queue, p: Payload): Queue {
    Queue(q.queued, RemoveOne(q.processing, p), q.leases - {p})
  }

  function Retry(q: Queue, p: Payload): Queue { Push(Ack(q, p), Bump(p)) }

  function Heartbeat(q: Queue, p: Payload, now: int): Queue {
    if p in q.leases then q.(leases := q.leases[p := now]) else q
  }

  /** A stale delivery goes back with a larger attempt number; one without a job is dropped. */
  function ReclaimOne(q: Queue, p: Payload): Queue {
    if HasJob(p) then Retry(q, p) else Ack(q, p)
  }

  predicate Stale(heartbeat: int, now: int, maxAge: int) {
    now - heartbeat > if maxAge > 1 then maxAge else 1
  }

  class RedisJobQueue {
    var queued: seq<Payload>
    var processing: seq<Payload>
    var leases: map<Payload, int>

    function View(): Queue
      reads this
    {
      Queue(queued, processing, leases)
    }

    constructor ()
      ensures View() == Queue([], [], map[])
    {
      queued, processing, leases := [], [], map[];
    }

    method Enqueue(workspace: string, job: string, principal: string) returns (receipt: Payload)
      modifies this
      ensures receipt == Payload(workspace, job, 1, principal)
      ensures View() == Push(old(View()), receipt)
    {
      receipt := Payload(workspace, job, 1, principal);
      queued := [receipt] + queued;
    }

    method Claim(now: int) returns (receipt: Option<Payload>)
      modifies this
      ensures old(queued) == [] ==> receipt == None && View() == old(View())
      ensures old(queued) != [] ==>
        receipt == Some(old(queued)[|old(queued)| - 1]) && View() == Claimed(old(View()), now)
    {
      if queued == [] { return None; }
      var p := queued[|queued| - 1];
      queued, processing := queued[..|queued| - 1], [p] + processing;
      leases := leases[p := now];
      receipt := Some(p);
    }

    method Acknowledge(receipt: Payload)
      modifies this
      ensures View() == Ack(old(View()), receipt)
    {
      processing := RemoveOne(processing, receipt);
      leases := leases - {receipt};
    }

    method RetryDelivery(receipt: Payload)
      modifies this
      ensures View() == Retry(old(View()), receipt)
    {
      Acknowledge(receipt);
      queued := [Bump(receipt)] + queued;
    }

    method Beat(receipt: Payload, now: int) returns (held: bool)
      modifies this
      ensures held <==> receipt in old(leases)
      ensures View() == Heartbeat(old(View()), receipt, now)
    {
      held := receipt in leases;
      if held { leases := leases[receipt := now]; }
    }

    /** Walks over the leases in any order; every stale one is reclaimed, the others are not touched. */
    method ReclaimStale(maxAge: int, now: int) returns (reclaimed: nat, ghost order: seq<Payload>)
      modifies this
      ensures View() == ReclaimAll(old(View()), order)
      ensures Distinct(order)
      ensures forall p :: p in order <==> p in old(leases) && now - old(leases)[p] > (if maxAge > 1 then maxAge else 1)
      ensures reclaimed == |Bumped(order)|
    {
      reclaimed, order := 0, [];
      var snapshot := leases;
      var left := snapshot.Keys;
      while left != {}
        invariant left <= snapshot.Keys && reclaimed == |Bumped(order)|
        invariant View() == ReclaimAll(old(View()), order) && Distinct(order)
        invariant forall p :: p in order <==> p in snapshot && p !in left && Stale(snapshot[p], now, maxAge)
        decreases left
      {
        var p :| p in left;
        left := left - {p};
        if Stale(snapshot[p], now, maxAge) {
          ReclaimAllSnoc(old(View()), order, p);
          order := order + [p];
          processing := RemoveOne(processing, p);
          leases := leases - {p};
          if HasJob(p) {
            queued := [Bump(p)] + queued;
            reclaimed := reclaimed + 1;
          }
        }
      }
    }
  }

  function ReclaimAll(q: Queue, order: seq<Payload>): Queue {
    if order == [] then q else ReclaimOne(ReclaimAll(q, order[..|order| - 1]), order[|order| - 1])
  }

  lemma ReclaimAllSnoc(q: Queue, order: seq<Payload>, p: Payload)
    ensures ReclaimAll(q, order + [p]) == ReclaimOne(ReclaimAll(q, order), p)
    ensures Bumped(order + [p]) == Bumped(order) + (if HasJob(p) then [Bump(p)] else [])
  {
  }

  predicate HasJob(p: Payload) { p.workspace != "" && p.job != "" }

  /** The deliveries a reclaim puts back. */
  function Bumped(order: seq<Payload>): seq<Payload> {
    if order == [] then [] else
      Bumped(order[..|order| - 1]) + (if HasJob(order[|order| - 1]) then [Bump(order[|order| - 1])] else [])
  }

  // ---- Deliveries in flight ----

  function InFlight(q: Queue): multiset<Payload> { multiset(q.queued) + multiset(q.processing) }

  /** Leases and processing entries correspond. */
  ghost predicate Leased(q: Queue) { forall p :: p in q.leases <==> p in q.processing }

  /** No payload is in flight twice. */
  ghost predicate Unique(q: Queue) { forall p :: InFlight(q)[p] <= 1 }

  ghost predicate Sound(q: Queue) { Leased(q) && Unique(q) }

  lemma {:induction false} RemoveOneMultiset(s: seq<Payload>, p: Payload)
    ensures multiset(RemoveOne(s, p)) == multiset(s) - multiset{p}
    ensures p !in s ==> RemoveOne(s, p) == s
  {
    if s != [] {
      assert s == [s[0]] + s[1..];
      if s[0] != p { RemoveOneMultiset(s[1..], p); }
    }
  }

  lemma CountMember(s: seq<Payload>, p: Payload)
    ensures p in s <==> multiset(s)[p] > 0
  {
  }

  lemma ClaimKeepsFlight(q: Queue, now: int)
    requires q.queued != []
    ensures InFlight(Claimed(q, now)) == InFlight(q)
  {
    var front, p := q.queued[..|q.queued| - 1], q.queued[|q.queued| - 1];
    assert q.queued == front + [p];
    assert multiset([p] + q.processing) == multiset{p} + multiset(q.processing);
  }

  lemma AckFlight(q: Queue, p: Payload)
    ensures InFlight(Ack(q, p)) == if p in q.processing then InFlight(q) - multiset{p} else InFlight(q)
  {
    RemoveOneMultiset(q.processing, p);
    CountMember(q.processing, p);
  }

  lemma PushFlight(q: Queue, p: Payload)
    ensures InFlight(Push(q, p)) == InFlight(q) + multiset{p}
  {
  }

  /** A late acknowledgement changes nothing exactly when the delivery is no longer held. */
  lemma LateAckExactly(q: Queue, p: Payload)
    ensures Ack(q, p) == q <==> p !in q.processing && p !in q.leases
  {
    RemoveOneMultiset(q.processing, p);
    CountMember(q.processing, p);
    if Ack(q, p) == q { assert p !in (q.leases - {p}); }
    if p !in q.leases { assert q.leases - {p} == q.leases; }
  }

  /** Leases survive an acknowledgement exactly when the acknowledged payload is not held twice. */
  lemma AckKeepsLeasesExactly(q: Queue, p: Payload)
    requires Leased(q)
    ensures Leased(Ack(q, p)) <==> multiset(q.processing)[p] <= 1
  {
    var after := Ack(q, p);
    RemoveOneMultiset(q.processing, p);
    forall x ensures x in after.processing <==> x in q.processing && (x == p ==> multiset(q.processing)[p] >= 2) {
      CountMember(after.processing, x);
      CountMember(q.processing, x);
    }
    assert p !in after.leases;
    assert multiset(q.processing)[p] >= 2 ==> p in after.processing;
    assert forall x :: x != p ==> (x in after.leases <==> x in after.processing);
  }

  lemma {:induction false} DistinctCount(s: seq<Payload>, p: Payload)
    requires Distinct(s)
    ensures multiset(s)[p] <= 1
  {
    if s != [] {
      assert s == [s[0]] + s[1..];
      DistinctCount(s[1..], p);
      if s[0] == p { CountMember(s[1..], p); }
    }
  }

  ghost function Members(s: seq<Payload>): set<Payload> { set p | p in s }

  lemma MembersSnoc(s: seq<Payload>, p: Payload)
    ensures Members(s + [p]) == Members(s) + {p}
  {
  }

  lemma MinusTwice(a: multiset<Payload>, b: multiset<Payload>, p: Payload)
    ensures a - b - multiset{p} == a - (b + multiset{p})
  {
  }

  lemma {:induction false} ReclaimProcessing(q: Queue, order: seq<Payload>)
    ensures multiset(ReclaimAll(q, order).processing) == multiset(q.processing) - multiset(order)
  {
    hide RemoveOne;
    if order != [] {
      var front, p := order[..|order| - 1], order[|order| - 1];
      ReclaimProcessing(q, front);
      RemoveOneMultiset(ReclaimAll(q, front).processing, p);
      MinusTwice(multiset(q.processing), multiset(front), p);
      assert order == front + [p];
    }
  }

  lemma {:induction false} ReclaimQueued(q: Queue, order: seq<Payload>)
    ensures multiset(ReclaimAll(q, order).queued) == multiset(q.queued) + multiset(Bumped(order))
  {
    if order != [] {
      var front, p := order[..|order| - 1], order[|order| - 1];
      ReclaimQueued(q, front);
      var m := ReclaimAll(q, front);
      assert multiset([Bump(p)] + m.queued) == multiset{Bump(p)} + multiset(m.queued);
    }
  }

  lemma {:induction false} ReclaimLeases(q: Queue, order: seq<Payload>)
    ensures ReclaimAll(q, order).leases == q.leases - Members(order)
  {
    hide Members;
    if order == [] {
      EmptyMembers();
      assert q.leases - {} == q.leases;
    } else {
      var front, p := order[..|order| - 1], order[|order| - 1];
      assert order == front + [p];
      MembersSnoc(front, p);
      ReclaimLeases(q, front);
      assert q.leases - Members(order) == q.leases - Members(front) - {p};
    }
  }

  /**
   * Reclaiming moves exactly the given leases: they leave processing and come back to the queue, once, one attempt
   * higher. Leases match processing afterwards if and only if none of them was processed twice.
   */
  lemma ReclaimMoves(q: Queue, order: seq<Payload>)
    requires Leased(q) && Distinct(order) && forall p :: p in order ==> p in q.leases
    ensures
      var r := ReclaimAll(q, order);
      && multiset(r.processing) == multiset(q.processing) - multiset(order)
      && multiset(r.queued) == multiset(q.queued) + multiset(Bumped(order))
      && r.leases == q.leases - Members(order)
      && (Leased(r) <==> forall p :: p in order ==> multiset(q.processing)[p] <= 1)
  {
    ReclaimProcessing(q, order);
    ReclaimQueued(q, order);
    ReclaimLeases(q, order);
    var r := ReclaimAll(q, order);
    forall p ensures p in r.processing <==> multiset(q.processing)[p] > (if p in order then 1 else 0) {
      CountMember(r.processing, p);
      CountMember(order, p);
      DistinctCount(order, p);
    }
    forall p ensures p in r.leases <==> p in q.leases && p !in order { assert p in Members(order) <==> p in order; }
    forall p ensures p in q.processing <==> multiset(q.processing)[p] > 0 { CountMember(q.processing, p); }
    if p :| p in order && multiset(q.processing)[p] > 1 { assert p in r.processing && p !in r.leases; }
  }

  lemma EmptyMembers()
    ensures Members([]) == {}
  {
  }

  lemma {:induction false} BumpedAttempts(order: seq<Payload>, i: nat)
    requires i < |Bumped(order)|
    ensures exists p :: p in order && HasJob(p) && Bumped(order)[i] == Bump(p) && Bumped(order)[i].attempt > p.attempt
  {
    var front, p := order[..|order| - 1], order[|order| - 1];
    assert order == front + [p];
    if i < |Bumped(front)| {
      BumpedAttempts(front, i);
    } else {
      assert Bumped(order)[i] == Bump(p);
    }
  }

  // ---- Whole runs ----

  datatype Op =
    | EnqueueOp(p: Payload)
    | ClaimOp(now: int)
    | AckOp(p: Payload)
    | RetryOp(p: Payload)
    | BeatOp(p: Payload, now: int)
    | ReclaimOp(p: Payload)

  predicate Enabled(q: Queue, op: Op) {
    match op
    case ClaimOp(_) => q.queued != []
    case ReclaimOp(p) => p in q.leases
    case _ => true
  }

  function Apply(q: Queue, op: Op): Queue
    requires Enabled(q, op)
  {
    match op
    case EnqueueOp(p) => Push(q, p)
    case ClaimOp(now) => Claimed(q, now)
    case AckOp(p) => Ack(q, p)
    case RetryOp(p) => Retry(q, p)
    case BeatOp(p, now) => Heartbeat(q, p, now)
    case ReclaimOp(p) => ReclaimOne(q, p)
  }

  /** The payload the operation pushes, if any, is not in flight already. */
  ghost predicate PushesNew(q: Queue, op: Op) {
    match op
    case EnqueueOp(p) => InFlight(q)[p] == 0
    case RetryOp(p) => InFlight(Ack(q, p))[Bump(p)] == 0
    case ReclaimOp(p) => HasJob(p) ==> InFlight(Ack(q, p))[Bump(p)] == 0
    case _ => true
  }

  lemma PushSoundExactly(q: Queue, p: Payload)
    requires Sound(q)
    ensures Sound(Push(q, p)) <==> InFlight(q)[p] == 0
  {
    PushFlight(q, p);
    if Unique(Push(q, p)) { assert InFlight(Push(q, p))[p] <= 1; }
  }

  lemma AckSound(q: Queue, p: Payload)
    requires Sound(q)
    ensures Sound(Ack(q, p))
  {
    AckFlight(q, p);
    assert InFlight(q)[p] <= 1;
    AckKeepsLeasesExactly(q, p);
  }

  /** From a sound queue an operation leads to a sound one exactly when it pushes nothing that is in flight. */
  lemma SoundExactly(q: Queue, op: Op)
    requires Sound(q) && Enabled(q, op)
    ensures Sound(Apply(q, op)) <==> PushesNew(q, op)
  {
    match op
    case EnqueueOp(p) => PushSoundExactly(q, p);
    case ClaimOp(now) => ClaimKeepsFlight(q, now);
    case AckOp(p) => AckSound(q, p);
    case RetryOp(p) => AckSound(q, p); PushSoundExactly(Ack(q, p), Bump(p));
    case BeatOp(p, now) => assert InFlight(Heartbeat(q, p, now)) == InFlight(q);
    case ReclaimOp(p) => AckSound(q, p); PushSoundExactly(Ack(q, p), Bump(p));
  }

  ghost predicate Runs(q: Queue, ops: seq<Op>)
    decreases |ops|
  {
    ops == [] || (Enabled(q, ops[0]) && Runs(Apply(q, ops[0]), ops[1..]))
  }

  ghost function After(q: Queue, ops: seq<Op>): Queue
    requires Runs(q, ops)
    decreases |ops|
  {
    if ops == [] then q else After(Apply(q, ops[0]), ops[1..])
  }

  /** The operation puts this very payload, with its attempt number, into the queue. */
  predicate Pushes(op: Op, p: Payload) {
    match op
    case EnqueueOp(x) => x == p
    case RetryOp(x) => Bump(x) == p
    case ReclaimOp(x) => Bump(x) == p
    case _ => false
  }

  ghost predicate Gone(q: Queue, p: Payload) { p !in q.queued && p !in q.processing && p !in q.leases }

  lemma ReclaimedIsGone(q: Queue, p: Payload)
    requires Sound(q) && p in q.leases
    ensures Gone(ReclaimOne(q, p), p)
  {
    RemoveOneMultiset(q.processing, p);
    CountMember(q.processing, p);
    CountMember(RemoveOne(q.processing, p), p);
    CountMember(q.queued, p);
    assert InFlight(q)[p] <= 1;
    assert Bump(p) != p;
  }

  predicate Takes(q: Queue, op: Op, p: Payload) { op.ClaimOp? && q.queued != [] && q.queued[|q.queued| - 1] == p }

  predicate Releases(op: Op, p: Payload) { (op.AckOp? || op.RetryOp? || op.ReclaimOp?) && op.p == p }

  ghost predicate NeverReleased(ops: seq<Op>, p: Payload) { forall i :: 0 <= i < |ops| ==> !Releases(ops[i], p) }

  /** Somebody took the payload and it was not released since. */
  ghost predicate TakenSince(q: Queue, ops: seq<Op>, p: Payload)
    requires Runs(q, ops)
    decreases |ops|
  {
    ops != [] && ((Takes(q, ops[0], p) && NeverReleased(ops[1..], p)) || TakenSince(Apply(q, ops[0]), ops[1..], p))
  }

  lemma LeaseStep(q: Queue, op: Op, p: Payload)
    requires Enabled(q, op)
    ensures p in Apply(q, op).leases <==> Takes(q, op, p) || (p in q.leases && !Releases(op, p))
  {
  }

  /** A payload is leased after a run exactly if it was taken and not released since, or was leased all along. */
  lemma {:induction false} LeasedAfter(q: Queue, ops: seq<Op>, p: Payload)
    requires Runs(q, ops)
    ensures p in After(q, ops).leases <==> TakenSince(q, ops, p) || (p in q.leases && NeverReleased(ops, p))
    decreases |ops|
  {
    hide Apply, Enabled, Takes, Releases;
    if ops != [] {
      LeaseStep(q, ops[0], p);
      LeasedAfter(Apply(q, ops[0]), ops[1..], p);
      assert ops == [ops[0]] + ops[1..];
      assert NeverReleased(ops, p) <==> !Releases(ops[0], p) && NeverReleased(ops[1..], p);
    }
  }

  /**
   * The late acknowledgement of a reclaimed delivery removes nothing if and only if nobody took that very payload again
   * and still holds it.
   */
  lemma LateAckRemovesNothing(q: Queue, p: Payload, ops: seq<Op>)
    requires Gone(q, p) && Runs(q, ops) && Leased(After(q, ops))
    ensures Ack(After(q, ops), p) == After(q, ops) <==> !TakenSince(q, ops, p)
  {
    LeasedAfter(q, ops, p);
    LateAckExactly(After(q, ops), p);
  }

  /** A payload that is gone comes back only by being pushed. */
  lemma {:induction false} TakenWasPushed(q: Queue, ops: seq<Op>, p: Payload) returns (i: nat)
    requires Runs(q, ops) && p !in q.queued && TakenSince(q, ops, p)
    ensures i < |ops| && Pushes(ops[i], p)
    decreases |ops|
  {
    hide Pushes;
    if Pushes(ops[0], p) {
      i := 0;
    } else {
      QueuedStep(q, ops[0], p);
      i := TakenWasPushed(Apply(q, ops[0]), ops[1..], p);
      i := i + 1;
    }
  }

  lemma QueuedStep(q: Queue, op: Op, p: Payload)
    requires Enabled(q, op) && p !in q.queued
    ensures !Takes(q, op, p)
    ensures !Pushes(op, p) ==> p !in Apply(q, op).queued
  {
  }

  ghost predicate AllNew(q: Queue, ops: seq<Op>)
    requires Runs(q, ops)
    decreases |ops|
  {
    ops == [] || (PushesNew(q, ops[0]) && AllNew(Apply(q, ops[0]), ops[1..]))
  }

  /** Sound now and after every operation. */
  ghost predicate SoundThroughout(q: Queue, ops: seq<Op>)
    requires Runs(q, ops)
    decreases |ops|
  {
    Sound(q) && (ops == [] || SoundThroughout(Apply(q, ops[0]), ops[1..]))
  }

  /** Over any run every delivery stays in exactly one list and leases match, if and only if no payload is pushed while in flight. */
  lemma {:induction false} SoundForever(q: Queue, ops: seq<Op>)
    requires Runs(q, ops) && Sound(q)
    ensures SoundThroughout(q, ops) <==> AllNew(q, ops)
    ensures AllNew(q, ops) ==> Sound(After(q, ops))
    decreases |ops|
  {
    hide Sound, PushesNew, Apply, Enabled;
    if ops != [] {
      SoundExactly(q, ops[0]);
      if Sound(Apply(q, ops[0])) { SoundForever(Apply(q, ops[0]), ops[1..]); }
      else { UnsoundThroughout(Apply(q, ops[0]), ops[1..]); }
    }
  }

  lemma UnsoundThroughout(q: Queue, ops: seq<Op>)
    requires Runs(q, ops) && !Sound(q)
    ensures !SoundThroughout(q, ops)
  {
  }

  // ---- Deliveries are neither lost nor invented ----

  datatype Key = Key(workspace: string, job: string, principal: string)

  function KeyOf(p: Payload): Key { Key(p.workspace, p.job, p.principal) }

  function Count(s: seq<Payload>, k: Key): (n: nat)
    ensures n > 0 <==> exists p :: p in s && KeyOf(p) == k
  {
    if s == [] then 0 else (if KeyOf(s[0]) == k then 1 else 0) + Count(s[1..], k)
  }

  /** Deliveries of a job that are in flight. */
  function Deliveries(q: Queue, k: Key): nat { Count(q.queued, k) + Count(q.processing, k) }

  /** How an operation changes them: only enqueueing, releasing a held delivery, or retrying one that is no longer held. */
  function Change(q: Queue, op: Op, k: Key): int
    requires Enabled(q, op)
  {
    match op
    case EnqueueOp(p) => if KeyOf(p) == k then 1 else 0
    case AckOp(p) => if KeyOf(p) == k && p in q.processing then -1 else 0
    case RetryOp(p) => if KeyOf(p) == k && p !in q.processing then 1 else 0
    case ReclaimOp(p) =>
      if KeyOf(p) != k then 0 else if HasJob(p) then (if p in q.processing then 0 else 1)
      else if p in q.processing then -1 else 0
    case _ => 0
  }

  ghost function Changes(q: Queue, ops: seq<Op>, k: Key): int
    requires Runs(q, ops)
    decreases |ops|
  {
    if ops == [] then 0 else Change(q, ops[0], k) + Changes(Apply(q, ops[0]), ops[1..], k)
  }

  lemma {:induction false} CountRemove(s: seq<Payload>, p: Payload, k: Key)
    ensures Count(RemoveOne(s, p), k) == Count(s, k) - (if p in s && KeyOf(p) == k then 1 else 0)
  {
    if s != [] && s[0] != p {
      CountRemove(s[1..], p, k);
      assert s == [s[0]] + s[1..];
    }
  }

  lemma {:induction false} CountAppend(s: seq<Payload>, p: Payload, k: Key)
    ensures Count(s + [p], k) == Count(s, k) + if KeyOf(p) == k then 1 else 0
  {
    if s != [] {
      assert (s + [p])[1..] == s[1..] + [p];
      CountAppend(s[1..], p, k);
    } else {
      assert s + [p] == [p];
    }
  }

  lemma OneChange(q: Queue, op: Op, k: Key)
    requires Enabled(q, op)
    ensures Deliveries(Apply(q, op), k) == Deliveries(q, k) + Change(q, op, k)
  {
    match op
    case EnqueueOp(p) =>
    case ClaimOp(now) =>
      var front, p := q.queued[..|q.queued| - 1], q.queued[|q.queued| - 1];
      assert q.queued == front + [p];
      CountAppend(front, p, k);
    case AckOp(p) => CountRemove(q.processing, p, k);
    case RetryOp(p) => CountRemove(q.processing, p, k);
    case BeatOp(p, now) =>
    case ReclaimOp(p) => CountRemove(q.processing, p, k);
  }

  /** Over any run the deliveries of a job change by exactly the enqueued, released and late-retried ones. */
  lemma {:induction false} DeliveriesConserved(q: Queue, ops: seq<Op>, k: Key)
    requires Runs(q, ops)
    ensures Deliveries(After(q, ops), k) == Deliveries(q, k) + Changes(q, ops, k)
    decreases |ops|
  {
    if ops != [] {
      OneChange(q, ops[0], k);
      DeliveriesConserved(Apply(q, ops[0]), ops[1..], k);
    }
  }
}
