/** Claiming and finishing session turns under the session lock. */
module SessionTurns {
  import opened Common
  import opened Ordering
  import opened Jobs
  import opened Requests

  datatype Claim =
    | Granted(job: string)
    | Known(job: string, status: Status)       // the key is registered: its present state is returned
    | Conflict(job: string, reason: string)
    | Rejected(reason: string)
    | Unowned                                  // no session: executed without a job or a record

  /** A job of the session that is running an open turn. */
  predicate OpenTurn(jobs: map<string, Job>, session: string, id: string) {
    id in jobs && jobs[id].session == session && jobs[id].status == Running && jobs[id].turn.Some? && jobs[id].turn.value.open
  }

  /** What the job search sees: any choice of the workspace's jobs. */
  ghost predicate Listing(jobs: map<string, Job>, listing: seq<string>) { forall id :: id in listing ==> id in jobs }

  /** The search missed no job of the session that runs an open turn. */
  ghost predicate SeesOpenTurns(jobs: map<string, Job>, session: string, listing: seq<string>) {
    forall id :: OpenTurn(jobs, session, id) ==> id in listing
  }

  /** _ensure_running: every status but running and paused is reactivated. */
  function EnsureRunning(job: Job, now: int): Job {
    if job.status == Running || job.status == Paused then job
    else match MarkRunning(job, now) case Some(j) => j case None => job
  }

  /** The job a granted turn works on, with its open turn. */
  function WithTurn(job: Job, key: string, now: int): Job {
    EnsureRunning(job, now).(turn := Some(Turn(true, key)), updatedAt := now)
  }

  /** A session job as created and queued by its first turn. */
  function NewJob(session: string, now: int): Job { Job(Queued, false, 0, 3, "", None, session, now, None) }

  /** Every status but paused has an edge to running. */
  lemma ReactivatesUnlessPaused(job: Job, now: int)
    ensures EnsureRunning(job, now).status == Running <==> job.status != Paused
  {
  }

  /** What a granted turn makes of a job: a new one runs its first attempt, an old one keeps its session and its retries. */
  lemma TurnGiven(job: Job, session: string, key: string, now: int)
    ensures WithTurn(NewJob(session, now), key, now) == Job(Running, false, 0, 3, "", Some(Turn(true, key)), session, now, None)
    ensures
      var given := WithTurn(job, key, now);
      && given.status == (if job.status == Paused then Paused else Running)
      && given.turn == Some(Turn(true, key)) && given.updatedAt == now
      && given.session == job.session && given.retries == job.retries && given.maxRetries == job.maxRetries
      && (job.status in {Running, Paused} ==> given.cancelRequested == job.cancelRequested && given.error == job.error && given.finishedAt == job.finishedAt)
      && (job.status !in {Running, Paused} ==> !given.cancelRequested && given.error == "" && given.finishedAt == None)
  {
  }

  /** Only the granted job's own turn changes, and it is open exactly if the job could be brought to running. */
  lemma GrantedTurn(before: map<string, Job>, after: map<string, Job>, session: string, id: string, job: Job, key: string, now: int)
    requires after == before[id := WithTurn(job, key, now)] && job.session == session
    ensures OpenTurn(after, session, id) <==> job.status != Paused
    ensures forall x :: x != id ==> (OpenTurn(after, session, x) <==> OpenTurn(before, session, x))
  {
    ReactivatesUnlessPaused(job, now);
    hide EnsureRunning;
    assert EnsureRunning(job, now).session == session by { KeepsSession(job, now); }
  }

  lemma KeepsSession(job: Job, now: int)
    ensures EnsureRunning(job, now).session == job.session
  {
  }

  ghost predicate Exactly1(jobs: map<string, Job>, session: string, id: string) {
    forall x :: OpenTurn(jobs, session, x) <==> x == id
  }

  class Turns {
    const session: string
    var registry: map<string, Request>
    var jobs: map<string, Job>

    constructor (session: string)
      ensures this.session == session && registry == map[] && jobs == map[]
    {
      this.session := session;
      registry, jobs := map[], map[];
    }

    /** Reconciles, expires and bounds the registry. */
    method Prune(now: int)
      modifies this`registry
      ensures PrunedTo(old(registry), jobs, now, registry)
      ensures forall k :: k in old(registry) ==> Decided(old(registry), jobs, now, registry, k)
    {
      hide Reconciled, Expired, Fresh, Stamp, Scanned, Listed, PrunedTo, Decided;
      ghost var reg := registry;
      var left := registry.Keys;
      var aged: seq<Aged> := [];
      Untouched(reg, jobs, now);
      while left != {}
        invariant left <= reg.Keys
        invariant Scanned(reg, jobs, now, reg.Keys - left, registry)
        invariant Listed(registry, now, reg.Keys - left, multiset(aged))
        decreases left
      {
        var k :| k in left;
        ghost var seen := reg.Keys - left;
        ScanOne(reg, jobs, now, seen, registry, k);
        var record := Reconciled(k, registry[k], jobs, now);
        ListOne(registry, now, seen, multiset(aged), k, record);
        left := left - {k};
        assert seen + {k} == reg.Keys - left;
        if Expired(record, now) {
          registry := registry - {k};
        } else {
          registry := registry[k := record];
          if Terminal(record) {
            TerminalIsFresh(record, now);
            aged := aged + [Aged(Stamp(record).value, k)];
          }
        }
      }
      assert reg.Keys - left == reg.Keys;
      var sorted := Sort(aged, Older);
      OlderOrder();
      SortSorts(aged, Older);
      SortPermutes(aged, Older);
      var overflow := if |sorted| > MAX_TERMINAL then |sorted| - MAX_TERMINAL else 0;
      DropOldest(reg, jobs, now, registry, sorted, overflow);
      registry := registry - KeysOf(sorted[..overflow]);
      forall k | k in reg ensures Decided(reg, jobs, now, registry, k) { PruneDecides(reg, jobs, now, registry, k); }
    }

    /** The execution owner of the session, if a listed job runs an open turn. */
    method RunningTurn(listing: seq<string>) returns (owner: Option<string>)
      ensures owner.Some? ==> owner.value in listing && OpenTurn(jobs, session, owner.value)
      ensures owner.None? ==> forall id :: id in listing ==> !OpenTurn(jobs, session, id)
    {
      var i := 0;
      while i < |listing|
        invariant i <= |listing| && forall j :: 0 <= j < i ==> !OpenTurn(jobs, session, listing[j])
      {
        if OpenTurn(jobs, session, listing[i]) { return Some(listing[i]); }
        i := i + 1;
      }
      owner := None;
    }

    /** Opens a turn on the session's first listed job, or on a new one when none is listed. */
    method BeginTurn(key: string, listing: seq<string>, newId: string, now: int) returns (id: string)
      requires newId !in jobs && Listing(jobs, listing)
      modifies this`jobs
      ensures id in old(jobs) ==> id in listing && old(jobs)[id].session == session && jobs == old(jobs)[id := WithTurn(old(jobs)[id], key, now)]
      ensures id !in old(jobs) ==> id == newId && jobs == old(jobs)[id := WithTurn(NewJob(session, now), key, now)]
      ensures id in old(jobs) <==> exists x :: x in listing && old(jobs)[x].session == session
    {
      var i := 0;
      while i < |listing|
        invariant i <= |listing| && forall j :: 0 <= j < i ==> jobs[listing[j]].session != session
        invariant jobs == old(jobs)
      {
        if jobs[listing[i]].session == session {
          id := listing[i];
          jobs := jobs[id := WithTurn(jobs[id], key, now)];
          return;
        }
        i := i + 1;
      }
      id := newId;
      jobs := jobs[id := WithTurn(NewJob(session, now), key, now)];
    }

    /**
     * Claims the execution right for a request key. The registry is pruned first; `pruned` is what that left. A known
     * key is never granted again; otherwise the turn is granted exactly when no listed job of the session runs an open
     * turn. Afterwards exactly the granted one does, if and only if the search missed no open turn and the job was not
     * paused, the one status with no way back to running.
     */
    method ClaimTurn(key: string, hash: string, listing: seq<string>, newId: string, now: int)
      returns (claim: Claim, ghost pruned: map<string, Request>)
      requires newId !in jobs && Listing(jobs, listing)
      modifies this
      ensures session == "" <==> claim.Unowned?
      ensures session == "" ==> registry == old(registry)
      ensures session != "" && |key| > 256 ==> claim.Rejected? && registry == old(registry) && jobs == old(jobs)
      ensures session != "" && |key| <= 256 && key != "" ==>
        && PrunedTo(old(registry), old(jobs), now, pruned)
        && ClaimStep(pruned, old(jobs), key, hash, now, claim, registry)
      ensures session != "" && |key| <= 256 ==>
        (claim.Granted? <==> (key == "" || key !in pruned) && forall id :: id in listing ==> !OpenTurn(old(jobs), session, id))
      ensures claim.Granted? ==> claim.job in jobs && jobs[claim.job].turn == Some(Turn(true, key))
      ensures claim.Granted? ==>
        (Exactly1(jobs, session, claim.job) <==>
           && SeesOpenTurns(old(jobs), session, listing)
           && (claim.job !in old(jobs) || old(jobs)[claim.job].status != Paused))
      ensures !claim.Granted? ==> jobs == old(jobs)
    {
      hide PrunedTo, Reconciled;
      pruned := registry;
      if session == "" { return Unowned, pruned; }
      if |key| > 256 { return Rejected("client_request_id too long"), pruned; }
      if key != "" {
        Prune(now);
        pruned := registry;
        if key in registry {
          var existing := registry[key];
          if existing.hash != "" && existing.hash != hash {
            return Conflict(existing.job, "client_request_payload_mismatch"), pruned;
          }
          existing := Reconciled(key, existing, jobs, now);
          registry := registry[key := existing];
          return Known(existing.job, existing.status), pruned;
        }
      }
      var owner := RunningTurn(listing);
      if owner.Some? { return Conflict(owner.value, "session_turn_in_progress"), pruned; }
      var id := BeginTurn(key, listing, newId, now);
      if key != "" {
        registry := registry[key := Request(hash, id, Running, Some(now), Some(now), None)];
      }
      claim := Granted(id);
      GrantedTurn(old(jobs), jobs, session, id, if id in old(jobs) then old(jobs)[id] else NewJob(session, now), key, now);
      if !SeesOpenTurns(old(jobs), session, listing) {
        var x :| OpenTurn(old(jobs), session, x) && x !in listing;
        assert x != id ==> OpenTurn(jobs, session, x);
      }
    }

    /** Records the end of a claimed request. */
    method FinishTurn(key: string, jobId: string, ok: bool, now: int)
      returns (ghost before: map<string, Request>, ghost marked: map<string, Request>)
      modifies this`registry
      ensures session == "" || key == "" ==> registry == old(registry)
      ensures session != "" && key != "" ==>
        && PrunedTo(old(registry), jobs, now, before)
        && FinishStep(before, jobs, key, jobId, ok, now, marked)
        && (if key in before && (jobId == "" || before[key].job == jobId) then PrunedTo(marked, jobs, now, registry)
            else registry == marked)
    {
      hide PrunedTo;
      before, marked := registry, registry;
      if session == "" || key == "" { return; }
      Prune(now);
      before, marked := registry, registry;
      if key !in registry { return; }
      var existing := registry[key];
      if jobId != "" && existing.job != jobId { return; }
      var cancelled := jobId in jobs && jobId != "" && (jobs[jobId].cancelRequested || jobs[jobId].status == Cancelled);
      var status := if cancelled then Cancelled else if ok then Succeeded else Failed;
      registry := registry[key := existing.(status := status, updatedAt := Some(now), finishedAt := Some(now))];
      marked := registry;
      Prune(now);
    }
  }

  lemma Untouched(reg: map<string, Request>, jobs: map<string, Job>, now: int)
    ensures Scanned(reg, jobs, now, reg.Keys - reg.Keys, reg) && Listed(reg, now, reg.Keys - reg.Keys, multiset([]))
  {
  }

  lemma TerminalIsFresh(r: Request, now: int)
    requires Terminal(r) && !Expired(r, now)
    ensures Fresh(r, now)
  {
  }

  // ---- Steps on the registry ----

  /** The effect of a claim after its prune. */
  ghost predicate ClaimStep(reg: map<string, Request>, jobs: map<string, Job>, key: string, hash: string, now: int,
                            claim: Claim, r: map<string, Request>) {
    if key !in reg then
      if claim.Granted? then r == reg[key := Request(hash, claim.job, Running, Some(now), Some(now), None)]
      else claim.Conflict? && r == reg
    else if reg[key].hash != "" && reg[key].hash != hash then claim.Conflict? && r == reg
    else
      var known := Reconciled(key, reg[key], jobs, now);
      claim == Known(known.job, known.status) && r == reg[key := known]
  }

  /** The effect of a finish after its first prune. */
  ghost predicate FinishStep(reg: map<string, Request>, jobs: map<string, Job>, key: string, jobId: string, ok: bool, now: int,
                             r: map<string, Request>) {
    if key !in reg || (jobId != "" && reg[key].job != jobId) then r == reg
    else
      var cancelled := jobId != "" && jobId in jobs && (jobs[jobId].cancelRequested || jobs[jobId].status == Cancelled);
      var status := if cancelled then Cancelled else if ok then Succeeded else Failed;
      r == reg[key := reg[key].(status := status, updatedAt := Some(now), finishedAt := Some(now))]
  }

  // ---- Every sequence of claims, finishes, reconciliations, prunes and removals ----

  datatype State = State(registry: map<string, Request>, jobs: map<string, Job>)

  datatype Event =
    | PruneEvent(now: int)
    | ClaimEvent(key: string, hash: string, now: int, claim: Claim)
    | FinishEvent(key: string, job: string, ok: bool, now: int)
    | JobsChange
    | SessionRemoved

  /** Prunes are steps of their own here; jobs change in any way between the steps of the registry. */
  ghost predicate Next(s: State, e: Event, t: State) {
    match e
    case PruneEvent(now) => t.jobs == s.jobs && PrunedTo(s.registry, s.jobs, now, t.registry)
    case ClaimEvent(key, hash, now, claim) => key != "" && ClaimStep(s.registry, s.jobs, key, hash, now, claim, t.registry)
    case FinishEvent(key, job, ok, now) => t.jobs == s.jobs && FinishStep(s.registry, s.jobs, key, job, ok, now, t.registry)
    case JobsChange => t.registry == s.registry
    case SessionRemoved => t.registry == map[]
  }

  ghost predicate Trace(states: seq<State>, events: seq<Event>) {
    && |states| == |events| + 1
    && forall i :: 0 <= i < |events| ==> Next(states[i], events[i], states[i + 1])
  }

  ghost predicate GrantedAt(events: seq<Event>, i: int, key: string) {
    0 <= i < |events| && events[i].ClaimEvent? && events[i].key == key && events[i].claim.Granted?
  }

  /**
   * A key leaves the registry only when the session goes, or pruned with a record that ended more than a week ago or was
   * crowded out by 256 no older ones.
   */
  ghost predicate Removal(s: State, e: Event, t: State, key: string) {
    && key in s.registry && key !in t.registry
    && (e.SessionRemoved? || (e.PruneEvent? && PrunedAway(Reconciled(key, s.registry[key], s.jobs, e.now), e.now, t.registry)))
  }

  ghost predicate PrunedAway(record: Request, now: int, left: map<string, Request>) {
    Ended(record) && (Age(record, now).None? || Age(record, now).value > 604_800 || CrowdedOut(record, now, left))
  }

  lemma KeyStays(s: State, e: Event, t: State, key: string)
    requires Next(s, e, t) && key in s.registry
    ensures key in t.registry || Removal(s, e, t, key)
  {
    hide Reconciled, CrowdedOut, Age, PrunedTo;
    if e.PruneEvent? { PruneDecides(s.registry, s.jobs, e.now, t.registry, key); }
  }

  /**
   * Between two grants of one key its record was removed: with its session, more than a week after it ended, or crowded
   * out by 256 ended records that were no older.
   */
  lemma GrantedTwice(states: seq<State>, events: seq<Event>, key: string, i: int, j: int) returns (m: int)
    requires Trace(states, events) && i < j && GrantedAt(events, i, key) && GrantedAt(events, j, key)
    ensures i < m < j && Removal(states[m], events[m], states[m + 1], key)
  {
    hide Removal, PrunedTo;
    assert Next(states[i], events[i], states[i + 1]) && Next(states[j], events[j], states[j + 1]);
    assert key in states[i + 1].registry && key !in states[j].registry;
    m := RemovedBetween(states, events, key, i + 1, j);
  }

  lemma {:induction false} RemovedBetween(states: seq<State>, events: seq<Event>, key: string, a: int, b: int) returns (m: int)
    requires Trace(states, events) && 0 <= a <= b < |states|
    requires key in states[a].registry && key !in states[b].registry
    ensures a <= m < b && Removal(states[m], events[m], states[m + 1], key)
    decreases b - a
  {
    hide Removal, Next;
    assert Next(states[a], events[a], states[a + 1]);
    KeyStays(states[a], events[a], states[a + 1], key);
    if key in states[a + 1].registry {
      m := RemovedBetween(states, events, key, a + 1, b);
    } else {
      m := a;
    }
  }

  /**
   * A request that ended at most a week ago, among at most 256 such ones, is not executed again: claimed with its input
   * it is answered with its job and how it ended, with another input it is a conflict.
   */
  lemma EndedIsKnown(reg: map<string, Request>, jobs: map<string, Job>, now: int, pruned: map<string, Request>,
                     key: string, hash: string, claim: Claim, r: map<string, Request>)
    requires key in reg && Young(reg[key], now) && |YoungKeys(reg, jobs, now)| <= 256
    requires PrunedTo(reg, jobs, now, pruned) && ClaimStep(pruned, jobs, key, hash, now, claim, r)
    ensures reg[key].hash == "" || reg[key].hash == hash ==> claim == Known(reg[key].job, reg[key].status)
    ensures reg[key].hash != "" && reg[key].hash != hash ==> claim.Conflict?
    ensures r == pruned && key in r && r[key] == reg[key]
  {
    hide Reconciled, Age, PrunedTo, YoungKeys;
    PruneDecides(reg, jobs, now, pruned, key);
    ReconciledAge(key, reg[key], jobs, now);
  }

  ghost predicate Present(states: seq<State>, key: string, a: int, b: int) {
    0 <= a <= b < |states| && forall i :: a <= i <= b ==> key in states[i].registry
  }

  /** While a record exists no claim on its key executes, and one with another input is a conflict. */
  lemma PresentNeverGranted(s: State, e: Event, t: State, key: string)
    requires Next(s, e, t) && key in s.registry && e.ClaimEvent? && e.key == key
    ensures !e.claim.Granted?
    ensures s.registry[key].hash != "" && e.hash != s.registry[key].hash ==> e.claim.Conflict?
    ensures s.registry[key].hash == "" || e.hash == s.registry[key].hash ==> e.claim.Known?
  {
  }

  /**
   * In every sequence of steps: as long as the record of a key exists, no claim on it executes, one with another input
   * than it was first registered with is a conflict, and any other returns the registered job.
   */
  lemma NeverGrantedWhilePresent(states: seq<State>, events: seq<Event>, key: string, a: int, b: int, i: int)
    requires Trace(states, events) && Present(states, key, a, b) && a <= i < b
    requires events[i].ClaimEvent? && events[i].key == key
    ensures
      var first, e := states[a].registry[key], events[i];
      && !e.claim.Granted?
      && (first.hash != "" && e.hash != first.hash ==> e.claim.Conflict?)
      && (first.hash == "" || e.hash == first.hash ==> e.claim.Known? && e.claim.job == first.job)
  {
    hide Reconciled;
    assert Present(states, key, a, i);
    NeverRunsAgain(states, events, key, a, i);
    assert Next(states[i], events[i], states[i + 1]);
    PresentNeverGranted(states[i], events[i], states[i + 1], key);
    KnownKeepsJob(key, states[i].registry[key], states[i].jobs, events[i].now);
  }

  lemma KnownKeepsJob(key: string, r: Request, jobs: map<string, Job>, now: int)
    ensures Reconciled(key, r, jobs, now).job == r.job
  {
  }

  /** While a record exists it keeps its input and its job, and never returns to running. */
  lemma {:induction false} NeverRunsAgain(states: seq<State>, events: seq<Event>, key: string, a: int, b: int)
    requires Trace(states, events) && Present(states, key, a, b)
    ensures states[b].registry[key].hash == states[a].registry[key].hash
    ensures states[b].registry[key].job == states[a].registry[key].job
    ensures Terminal(states[a].registry[key]) ==> Terminal(states[b].registry[key])
    decreases b - a
  {
    hide Next;
    if a < b {
      assert key in states[a].registry && key in states[a + 1].registry;
      assert Next(states[a], events[a], states[a + 1]);
      RecordKept(states[a], events[a], states[a + 1], key);
      NeverRunsAgain(states, events, key, a + 1, b);
    }
  }

  lemma RecordKept(s: State, e: Event, t: State, key: string)
    requires Next(s, e, t) && key in s.registry && key in t.registry
    ensures t.registry[key].hash == s.registry[key].hash && t.registry[key].job == s.registry[key].job
    ensures Terminal(s.registry[key]) ==> Terminal(t.registry[key])
  {
  }

  /** What makes a record succeeded: its own finish, or its job having succeeded in a turn of this very request. */
  ghost predicate Because(s: State, e: Event, key: string) {
    && key in s.registry
    && (|| (e.FinishEvent? && e.key == key && e.ok)
        || (var r := s.registry[key];
            && r.job in s.jobs && s.jobs[r.job].status == Succeeded && !s.jobs[r.job].cancelRequested
            && !(s.jobs[r.job].turn.Some? && s.jobs[r.job].turn.value.request !in {"", key})))
  }

  lemma BecomesSucceeded(s: State, e: Event, t: State, key: string)
    requires Next(s, e, t) && key in s.registry && key in t.registry
    requires s.registry[key].status != Succeeded && t.registry[key].status == Succeeded
    ensures Because(s, e, key)
  {
    hide PrunedOldest, TerminalKeys, Folded;
    var r := s.registry[key];
    if r.status == Running { FoldsOwnTurnOnly(key, r, s.jobs); } else { FoldsNothing(key, r, s.jobs); }
  }

  lemma FoldsNothing(key: string, r: Request, jobs: map<string, Job>)
    requires r.status != Running
    ensures Folded(key, r, jobs) == None
  {
  }

  /** In every sequence of steps a record is succeeded only because it was finished so or its own turn succeeded. */
  lemma {:induction false} SucceededBecause(states: seq<State>, events: seq<Event>, key: string, a: int, b: int) returns (m: int)
    requires Trace(states, events) && Present(states, key, a, b)
    requires states[a].registry[key].status != Succeeded && states[b].registry[key].status == Succeeded
    ensures a <= m < b && Because(states[m], events[m], key)
    decreases b - a
  {
    hide Next, Because;
    assert key in states[b - 1].registry && Next(states[b - 1], events[b - 1], states[b - 1 + 1]);
    if states[b - 1].registry[key].status == Succeeded {
      m := SucceededBecause(states, events, key, a, b - 1);
    } else {
      m := b - 1;
      BecomesSucceeded(states[m], events[m], states[m + 1], key);
    }
  }
}
