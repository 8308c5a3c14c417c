/** The idempotency registry of session turns: claiming, finishing, reconciling and pruning requests. */
module Requests {
  import opened Common
  import opened Ordering
  import opened Jobs

  const TTL := 604_800      // seconds a terminal record is kept
  const MAX_TERMINAL := 256 // terminal records kept at most

  /** A claimed request. `hash` fingerprints the accepted input; an empty one is unknown. */
  datatype Request = Request(hash: string, job: string, status: Status, createdAt: Option<int>, updatedAt: Option<int>, finishedAt: Option<int>)

  predicate Terminal(r: Request) { r.status == Succeeded || r.status == Failed || r.status == Cancelled }

  /** The newest usable timestamp. */
  function Stamp(r: Request): Option<int> {
    if r.finishedAt.Some? then r.finishedAt else if r.updatedAt.Some? then r.updatedAt else r.createdAt
  }

  /** The terminal state a stranded running claim is folded into, if its job shows one. */
  function Folded(key: string, r: Request, jobs: map<string, Job>): Option<Status> {
    var job := if r.job != "" && r.job in jobs then Some(jobs[r.job]) else None;
    var active := if job.Some? && job.value.turn.Some? then job.value.turn.value.request else "";
    if r.status != Running then None
    else if active != "" && active != key then Some(Failed)
    else if job.None? then None
    else if job.value.cancelRequested || job.value.status == Cancelled then Some(Cancelled)
    else if job.value.status == Succeeded || job.value.status == Failed then Some(job.value.status)
    else None
  }

  function Reconciled(key: string, r: Request, jobs: map<string, Job>, now: int): Request {
    match Folded(key, r, jobs)
    case None => r
    case Some(status) =>
      var finished := if r.job in jobs && jobs[r.job].finishedAt.Some? then jobs[r.job].finishedAt else Some(now);
      r.(status := status, updatedAt := Some(now), finishedAt := finished)
  }

  /**
   * A claim only ever ends as its own job shows: it succeeds exactly when the job did so in a turn of this very request
   * with no cancellation asked for, and the outcome of a later turn of the same job is never taken for it.
   */
  lemma FoldsOwnTurnOnly(key: string, r: Request, jobs: map<string, Job>)
    requires r.status == Running
    ensures
      var known := r.job != "" && r.job in jobs;
      var other := known && jobs[r.job].turn.Some? && jobs[r.job].turn.value.request !in {"", key};
      && (Folded(key, r, jobs) == Some(Succeeded) <==> known && !other && jobs[r.job].status == Succeeded && !jobs[r.job].cancelRequested)
      && (Folded(key, r, jobs) == Some(Cancelled) <==> known && !other && (jobs[r.job].cancelRequested || jobs[r.job].status == Cancelled))
      && (other ==> Folded(key, r, jobs) == Some(Failed))
      && (Folded(key, r, jobs).Some? <==> known && (other || jobs[r.job].cancelRequested || jobs[r.job].status in {Succeeded, Failed, Cancelled}))
  {
  }

  // ---- Pruning ----

  predicate Expired(r: Request, now: int) {
    Terminal(r) && (Stamp(r).None? || Stamp(r).value < now - TTL)
  }

  /** A terminal record within the retention time. */
  predicate Fresh(r: Request, now: int) { Terminal(r) && !Expired(r, now) }

  ghost function TerminalKeys(reg: map<string, Request>): set<string> { set k | k in reg && Terminal(reg[k]) }

  /** Surviving records are the reconciled ones, none of them expired, and every live record survives. */
  ghost predicate PrunedRecords(reg: map<string, Request>, jobs: map<string, Job>, now: int, r: map<string, Request>) {
    && r.Keys <= reg.Keys
    && (forall k :: k in r ==> r[k] == Reconciled(k, reg[k], jobs, now) && !Expired(r[k], now))
    && (forall k :: k in reg && !Terminal(Reconciled(k, reg[k], jobs, now)) ==> k in r)
  }

  /** A record that was terminal within retention and is gone. */
  ghost predicate Overflowed(reg: map<string, Request>, jobs: map<string, Job>, now: int, r: map<string, Request>, k: string) {
    k in reg && k !in r && Fresh(Reconciled(k, reg[k], jobs, now), now)
  }

  /** Records overflow only when the limit is reached, and none of them is newer than a survivor. */
  ghost predicate PrunedOldest(reg: map<string, Request>, jobs: map<string, Job>, now: int, r: map<string, Request>) {
    forall k :: Overflowed(reg, jobs, now, r, k) ==>
      && |TerminalKeys(r)| == MAX_TERMINAL
      && forall l :: l in TerminalKeys(r) ==> StampOf(Reconciled(k, reg[k], jobs, now)) <= StampOf(r[l])
  }

  function StampOf(r: Request): int { if Stamp(r).Some? then Stamp(r).value else 0 }

  ghost predicate PrunedTo(reg: map<string, Request>, jobs: map<string, Job>, now: int, r: map<string, Request>) {
    PrunedRecords(reg, jobs, now, r) && |TerminalKeys(r)| <= MAX_TERMINAL && PrunedOldest(reg, jobs, now, r)
  }

  datatype Aged = Aged(at: int, key: string)

  predicate Older(a: Aged, b: Aged) { a.at <= b.at }

  lemma OlderOrder()
    ensures TotalPreorder(Older)
  {
  }

  /** The bag holds exactly the fresh records among the seen ones, each once. */
  ghost predicate Listed(r: map<string, Request>, now: int, seen: set<string>, bag: multiset<Aged>) {
    && (forall a :: a in bag ==> bag[a] == 1 && a.key in seen && a.key in r && Fresh(r[a.key], now) && Stamp(r[a.key]) == Some(a.at))
    && (forall k :: k in seen && k in r && Terminal(r[k]) ==> Stamp(r[k]).Some? && Aged(Stamp(r[k]).value, k) in bag)
  }

  /** The first pass reconciles the seen records and drops the expired ones. */
  ghost predicate Scanned(reg: map<string, Request>, jobs: map<string, Job>, now: int, seen: set<string>, r: map<string, Request>) {
    && r.Keys <= reg.Keys && seen <= reg.Keys
    && (forall k :: k in reg && k !in seen ==> k in r && r[k] == reg[k])
    && (forall k :: k in seen ==> (k in r <==> !Expired(Reconciled(k, reg[k], jobs, now), now)))
    && (forall k :: k in seen && k in r ==> r[k] == Reconciled(k, reg[k], jobs, now))
  }

  /** One record of the first pass. */
  lemma ScanOne(reg: map<string, Request>, jobs: map<string, Job>, now: int, seen: set<string>, r: map<string, Request>, k: string)
    requires Scanned(reg, jobs, now, seen, r) && k in reg && k !in seen
    ensures k in r && r[k] == reg[k]
    ensures
      var record := Reconciled(k, reg[k], jobs, now);
      Scanned(reg, jobs, now, seen + {k}, if Expired(record, now) then r - {k} else r[k := record])
  {
    hide Reconciled, Expired;
  }

  lemma ListOne(r: map<string, Request>, now: int, seen: set<string>, bag: multiset<Aged>, k: string, record: Request)
    requires Listed(r, now, seen, bag) && k !in seen
    ensures Expired(record, now) ==> Listed(r - {k}, now, seen + {k}, bag)
    ensures !Terminal(record) ==> Listed(r[k := record], now, seen + {k}, bag)
    ensures Fresh(record, now) ==>
      Stamp(record).Some? && Listed(r[k := record], now, seen + {k}, bag + multiset{Aged(Stamp(record).value, k)})
  {
    hide Stamp;
    if Fresh(record, now) {
      var a := Aged(Stamp(record).value, k);
      assert a !in bag;
      assert bag[a] == 0;
    }
  }

  function KeysOf(aged: seq<Aged>): set<string> { set i | 0 <= i < |aged| :: aged[i].key }

  ghost predicate DistinctKeys(aged: seq<Aged>) {
    forall i, j :: 0 <= i < j < |aged| ==> aged[i].key != aged[j].key
  }

  lemma {:induction false} KeysCount(aged: seq<Aged>)
    requires DistinctKeys(aged)
    ensures |KeysOf(aged)| == |aged|
  {
    if aged != [] {
      var front, last := aged[..|aged| - 1], aged[|aged| - 1];
      KeysCount(front);
      KeysSnoc(front, last);
      assert aged == front + [last];
      assert last.key !in KeysOf(front);
    }
  }

  lemma KeysSnoc(front: seq<Aged>, last: Aged)
    ensures KeysOf(front + [last]) == KeysOf(front) + {last.key}
  {
    var all := front + [last];
    forall k ensures k in KeysOf(all) <==> k in KeysOf(front) || k == last.key {
      if k in KeysOf(front) { var i :| 0 <= i < |front| && front[i].key == k; assert all[i].key == k; }
      if k == last.key { assert all[|front|].key == k; }
    }
  }

  lemma ListedDistinct(r: map<string, Request>, now: int, seen: set<string>, aged: seq<Aged>)
    requires Listed(r, now, seen, multiset(aged))
    ensures DistinctKeys(aged)
    ensures forall i :: 0 <= i < |aged| ==> aged[i].key in r && Fresh(r[aged[i].key], now) && Stamp(r[aged[i].key]) == Some(aged[i].at)
    ensures forall k :: k in seen && k in r && Terminal(r[k]) ==> k in KeysOf(aged)
  {
    hide Stamp, Fresh;
    forall i | 0 <= i < |aged| ensures aged[i].key in r && Fresh(r[aged[i].key], now) && Stamp(r[aged[i].key]) == Some(aged[i].at) {
      assert aged[i] in multiset(aged);
    }
    forall i, j | 0 <= i < j < |aged| ensures aged[i].key != aged[j].key {
      assert aged[i] in multiset(aged);
      if aged[i].key == aged[j].key { CountedTwice(aged, i, j); }
    }
    forall k | k in seen && k in r && Terminal(r[k]) ensures k in KeysOf(aged) {
      assert Aged(Stamp(r[k]).value, k) in aged;
    }
  }

  /** Dropping the oldest overflow from the sorted list of fresh records completes the prune. */
  lemma DropOldest(reg: map<string, Request>, jobs: map<string, Job>, now: int, r: map<string, Request>, sorted: seq<Aged>, n: nat)
    requires Scanned(reg, jobs, now, reg.Keys, r) && Listed(r, now, reg.Keys, multiset(sorted))
    requires SortedBy(sorted, Older) && n == if |sorted| > MAX_TERMINAL then |sorted| - MAX_TERMINAL else 0
    ensures PrunedTo(reg, jobs, now, r - KeysOf(sorted[..n]))
  {
    hide Reconciled, Stamp, Listed, PrunedRecords, PrunedOldest, KeysOf, TerminalKeys;
    ListedDistinct(r, now, reg.Keys, sorted);
    Survivors(r, now, sorted, n, reg.Keys);
    KeysCount(sorted[n..]);
    DropRecords(reg, jobs, now, r, sorted, n);
    forall k | Overflowed(reg, jobs, now, r - KeysOf(sorted[..n]), k)
      ensures n > 0 && forall j :: n <= j < |sorted| ==> StampOf(Reconciled(k, reg[k], jobs, now)) <= sorted[j].at
    {
      OverflowOlder(reg, jobs, now, r, sorted, n, k);
    }
    DropOverflow(reg, jobs, now, r, sorted, n);
  }

  lemma DropRecords(reg: map<string, Request>, jobs: map<string, Job>, now: int, r: map<string, Request>, sorted: seq<Aged>, n: nat)
    requires Scanned(reg, jobs, now, reg.Keys, r) && n <= |sorted|
    requires forall i :: 0 <= i < |sorted| ==> sorted[i].key in r && Fresh(r[sorted[i].key], now)
    ensures PrunedRecords(reg, jobs, now, r - KeysOf(sorted[..n]))
  {
    hide Reconciled, Stamp;
    var final := r - KeysOf(sorted[..n]);
    forall k | k in reg && !Terminal(Reconciled(k, reg[k], jobs, now)) ensures k in final {
      assert k in r && !Fresh(r[k], now);
    }
  }

  lemma OverflowOlder(reg: map<string, Request>, jobs: map<string, Job>, now: int, r: map<string, Request>, sorted: seq<Aged>, n: nat, k: string)
    requires Scanned(reg, jobs, now, reg.Keys, r) && n <= |sorted| && SortedBy(sorted, Older)
    requires forall i :: 0 <= i < |sorted| ==> sorted[i].key in r && Stamp(r[sorted[i].key]) == Some(sorted[i].at)
    requires Overflowed(reg, jobs, now, r - KeysOf(sorted[..n]), k)
    ensures n > 0 && forall j :: n <= j < |sorted| ==> StampOf(Reconciled(k, reg[k], jobs, now)) <= sorted[j].at
  {
  }

  lemma DropOverflow(reg: map<string, Request>, jobs: map<string, Job>, now: int, r: map<string, Request>, sorted: seq<Aged>, n: nat)
    requires n == if |sorted| > MAX_TERMINAL then |sorted| - MAX_TERMINAL else 0
    requires forall i :: 0 <= i < |sorted| ==> sorted[i].key in r && Stamp(r[sorted[i].key]) == Some(sorted[i].at)
    requires TerminalKeys(r - KeysOf(sorted[..n])) == KeysOf(sorted[n..]) && |KeysOf(sorted[n..])| == |sorted| - n
    requires forall k :: Overflowed(reg, jobs, now, r - KeysOf(sorted[..n]), k) ==>
      n > 0 && forall j :: n <= j < |sorted| ==> StampOf(Reconciled(k, reg[k], jobs, now)) <= sorted[j].at
    ensures PrunedOldest(reg, jobs, now, r - KeysOf(sorted[..n]))
  {
  }

  /** The terminal records left are the ones behind the dropped prefix. */
  lemma Survivors(r: map<string, Request>, now: int, sorted: seq<Aged>, n: nat, seen: set<string>)
    requires n <= |sorted| && DistinctKeys(sorted) && r.Keys <= seen
    requires forall i :: 0 <= i < |sorted| ==> sorted[i].key in r && Fresh(r[sorted[i].key], now)
    requires forall k :: k in seen && k in r && Terminal(r[k]) ==> k in KeysOf(sorted)
    ensures DistinctKeys(sorted[n..])
    ensures TerminalKeys(r - KeysOf(sorted[..n])) == KeysOf(sorted[n..])
  {
  }

  // ---- What a prune takes and what it leaves ----

  /** Seconds since the request finished, or else was updated, or else was created; None if no time is known. */
  ghost function Age(r: Request, now: int): Option<int> {
    match (r.finishedAt, r.updatedAt, r.createdAt)
    case (Some(t), _, _) => Some(now - t)
    case (None, Some(t), _) => Some(now - t)
    case (None, None, Some(t)) => Some(now - t)
    case (None, None, None) => None
  }

  ghost predicate Ended(r: Request) { r.status in {Succeeded, Failed, Cancelled} }

  /** Ended at most a week ago. */
  ghost predicate Young(r: Request, now: int) { Ended(r) && Age(r, now).Some? && Age(r, now).value <= 604_800 }

  ghost function YoungKeys(reg: map<string, Request>, jobs: map<string, Job>, now: int): set<string> {
    set k | k in reg && Young(Reconciled(k, reg[k], jobs, now), now)
  }

  /** An ended record pushed out: 256 ended ones are left, none of them older. */
  ghost predicate CrowdedOut(record: Request, now: int, r: map<string, Request>) {
    && Age(record, now).Some?
    && |set k | k in r && Ended(r[k])| == 256
    && forall k :: k in r && Ended(r[k]) ==> Age(r[k], now).Some? && Age(r[k], now).value <= Age(record, now).value
  }

  lemma FreshIsYoung(r: Request, now: int)
    ensures Fresh(r, now) <==> Young(r, now)
    ensures Terminal(r) <==> Ended(r)
    ensures Young(r, now) ==> StampOf(r) == now - Age(r, now).value
  {
  }

  /**
   * What a prune does to one record, as reconciled: a running one stays, one that ended more than a week ago goes, and a
   * younger one stays unless 256 others that are no older do. With at most 256 such records none of them goes.
   */
  ghost predicate Decided(reg: map<string, Request>, jobs: map<string, Job>, now: int, r: map<string, Request>, k: string)
    requires k in reg
  {
    var record := Reconciled(k, reg[k], jobs, now);
    && (k in r ==> r[k] == record)
    && (!Ended(record) ==> k in r)
    && (Ended(record) && !Young(record, now) ==> k !in r)
    && (Young(record, now) && k !in r ==> CrowdedOut(record, now, r))
    && (Young(record, now) && |YoungKeys(reg, jobs, now)| <= 256 ==> k in r)
  }

  lemma PruneDecides(reg: map<string, Request>, jobs: map<string, Job>, now: int, r: map<string, Request>, k: string)
    requires PrunedTo(reg, jobs, now, r) && k in reg
    ensures Decided(reg, jobs, now, r, k)
  {
    hide Reconciled, Stamp, Age, Fresh, Terminal, Ended;
    var record := Reconciled(k, reg[k], jobs, now);
    FreshIsYoung(record, now);
    forall l | l in r ensures Terminal(r[l]) <==> Ended(r[l]) { FreshIsYoung(r[l], now); }
    if Young(record, now) && k !in r {
      assert Overflowed(reg, jobs, now, r, k);
      assert (set l | l in r && Ended(r[l])) == TerminalKeys(r);
      forall l | l in r && Ended(r[l]) ensures Young(r[l], now) && Age(r[l], now).value <= Age(record, now).value {
        SurvivorFresh(reg, jobs, now, r, l);
        FreshIsYoung(r[l], now);
      }
      SubsetSmaller(TerminalKeys(r) + {k}, YoungKeys(reg, jobs, now));
    }
    if k in r && Ended(record) { SurvivorFresh(reg, jobs, now, r, k); }
  }

  lemma SurvivorFresh(reg: map<string, Request>, jobs: map<string, Job>, now: int, r: map<string, Request>, l: string)
    requires PrunedRecords(reg, jobs, now, r) && l in r && Terminal(r[l])
    ensures Fresh(r[l], now)
  {
  }

  lemma {:induction false} SubsetSmaller(a: set<string>, b: set<string>)
    requires a <= b
    ensures |a| <= |b|
  {
    if a != {} {
      var x :| x in a;
      SubsetSmaller(a - {x}, b - {x});
    }
  }

  /** Reconciling changes a stranded claim only: its end is that of its job, or now. */
  lemma ReconciledAge(key: string, r: Request, jobs: map<string, Job>, now: int)
    ensures
      var record := Reconciled(key, r, jobs, now);
      && record.hash == r.hash && record.job == r.job && record.createdAt == r.createdAt
      && (record != r ==> r.status == Running && Ended(record) && record.updatedAt == Some(now))
      && (record != r && (r.job !in jobs || jobs[r.job].finishedAt.None?) ==> record.finishedAt == Some(now) && Age(record, now) == Some(0))
      && (record != r && r.job in jobs && jobs[r.job].finishedAt.Some? ==> Age(record, now) == Some(now - jobs[r.job].finishedAt.value))
  {
  }
}
