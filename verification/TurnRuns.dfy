/** Runs from the start of a session in which two of its turns execute at once. */
module TurnRuns {
  import opened Common
  import opened Jobs
  import opened TurnOverlap
  import SessionTurns
  import P = JobProtocol
  import R = JobRuns
  import Q = JobQueue

  // ---- Composing runs ----

  lemma {:induction false} RunsAppend(s: State, a: seq<Step>, b: seq<Step>)
    requires Runs(s, a) && Runs(After(s, a), b)
    ensures Runs(s, a + b) && After(s, a + b) == After(After(s, a), b)
    decreases |a|
  {
    hide Apply, Enabled;
    if a == [] {
      assert a + b == b;
    } else {
      RunsAppend(Apply(s, a[0]), a[1..], b);
      assert (a + b)[0] == a[0] && (a + b)[1..] == a[1..] + b;
    }
  }

  function Lifted(steps: seq<P.Step>): seq<Step> {
    if steps == [] then [] else [Of(steps[0])] + Lifted(steps[1..])
  }

  /** A run of the job protocol is a run of the session. */
  lemma {:induction false} LiftedRuns(s: State, steps: seq<P.Step>)
    requires P.Runs(s.protocol, steps)
    ensures Runs(s, Lifted(steps)) && After(s, Lifted(steps)) == s.(protocol := P.After(s.protocol, steps))
    decreases |steps|
  {
    hide P.Apply, P.Enabled;
    if steps != [] {
      var t := s.(protocol := P.Apply(s.protocol, steps[0]));
      LiftedRuns(t, steps[1..]);
      RunsStep(s, Of(steps[0]), Lifted(steps[1..]));
    }
  }

  lemma LiftedOnly(steps: seq<P.Step>)
    ensures forall i :: 0 <= i < |Lifted(steps)| ==> Lifted(steps)[i].Of?
  {
  }

  // ---- Pieces of runs ----

  function CreatedProtocol(k: P.Key, session: string, principal: string, now: int): P.State {
    P.State(map[k := SessionTurns.NewJob(session, now)], Q.Queue([R.FirstAttempt(k, principal)], [], map[]), map[],
            map[k := [P.Move(Created, Queued, P.Enqueued)]])
  }

  /** The first request of a session creates its job and queues it. */
  lemma Creates(k: P.Key, session: string, principal: string, now: int)
    ensures Runs(Start(k), [NewJob(k, session, principal, now)])
    ensures After(Start(k), [NewJob(k, session, principal, now)]) == State(CreatedProtocol(k, session, principal, now), k, [])
  {
    hide Runs, After;
    RunsOne(Start(k), NewJob(k, session, principal, now));
    var p := WithNewJob(P.START, k, session, principal, now);
    var c := P.Apply(P.START, P.CreateJob(k, Blank(session, now)));
    assert P.HistoryOf(c, k) == [];
    assert p.history[k] == [P.Move(Created, Queued, P.Enqueued)];
    assert p.jobs == map[k := SessionTurns.NewJob(session, now)];
    assert p.history == map[k := p.history[k]];
    assert p.queue.queued == [R.FirstAttempt(k, principal)];
  }

  /** A granted turn runs on the session's job. */
  lemma Grants(s: State, request: string, now: int)
    requires Present(s) && !OpenNow(s) && JobOf(s).status != Paused
    ensures Runs(s, [Grant(request, now)])
    ensures
      var t := After(s, [Grant(request, now)]);
      && t.key == s.key && t.turns == s.turns + [TurnRun(request, Executing)]
      && t.protocol == s.protocol.(jobs := s.protocol.jobs[s.key := SessionTurns.WithTurn(JobOf(s), request, now)])
      && OpenNow(t) && JobOf(t).status == Running && RequestOf(JobOf(t)) == request
  {
    hide Runs, After, SessionTurns.WithTurn;
    RunsOne(s, Grant(request, now));
    GrantOpens(JobOf(s), request, now);
  }

  // ---- An attachment ----

  /** The first turn writes its snapshot, the second is granted, the first attaches its run, and a third is granted. */
  lemma TwoTurnsExecute(k: P.Key, session: string, principal: string, now: int) returns (steps: seq<Step>)
    ensures Runs(Start(k), steps)
    ensures
      var t := After(Start(k), steps);
      ExecutingAt(t, 1) && ExecutingAt(t, 2) && t.turns[1].key == "b" && t.turns[2].key == "c"
  {
    hide Runs, After, Attached, SessionTurns.WithTurn;
    Creates(k, session, principal, now);
    var create := [NewJob(k, session, principal, now)];
    var s := After(Start(k), create);
    Grants(s, "a", now);
    var s1 := After(s, [Grant("a", now)]);
    RunsAppend(Start(k), create, [Grant("a", now)]);
    RunsOne(s1, WriteSnapshot(0, now));
    var s2 := After(s1, [WriteSnapshot(0, now)]);
    SnapshotCloses(JobOf(s1), "a", now);
    RunsAppend(Start(k), create + [Grant("a", now)], [WriteSnapshot(0, now)]);
    Grants(s2, "b", now);
    var s3 := After(s2, [Grant("b", now)]);
    RunsAppend(Start(k), create + [Grant("a", now)] + [WriteSnapshot(0, now)], [Grant("b", now)]);
    RunsOne(s3, Attach(0, true, now));
    var s4 := After(s3, [Attach(0, true, now)]);
    AttachCloses(JobOf(s3), true, now);
    RunsAppend(Start(k), create + [Grant("a", now)] + [WriteSnapshot(0, now)] + [Grant("b", now)], [Attach(0, true, now)]);
    Grants(s4, "c", now);
    steps := create + [Grant("a", now)] + [WriteSnapshot(0, now)] + [Grant("b", now)] + [Attach(0, true, now)];
    RunsAppend(Start(k), steps, [Grant("c", now)]);
    steps := steps + [Grant("c", now)];
  }

  // ---- A fence ----

  /** The session's job after its first grant, and after a worker took the job's delivery and died. */
  lemma TakenAndLost(s: State, k: P.Key, principal: string, now: int) returns (steps: seq<P.Step>)
    requires s.key == k && Present(s) && s.protocol.workers == map[]
    requires s.protocol.queue == Q.Queue([R.FirstAttempt(k, principal)], [], map[])
    requires k.workspace != "" && k.job != ""
    ensures P.Runs(s.protocol, steps)
    ensures
      var t := P.After(s.protocol, steps);
      && t.jobs == s.protocol.jobs && t.history == s.protocol.history
      && t.queue == Q.Queue([Q.Bump(R.FirstAttempt(k, principal))], [], map[]) && P.WorkerOf(t, 1) == P.Idle
  {
    hide P.Runs, P.After;
    var p := R.FirstAttempt(k, principal);
    var take := [P.TakeDelivery(0, now), P.Inspect(0)];
    assert s.protocol.queue.queued == [] + [p];
    R.Receives(s.protocol, 0, [], p, now);
    var u := P.After(s.protocol, take);
    var lost := [P.Crash(0), P.ReclaimStale(p)];
    R.RunsTwo(u, lost[0], lost[1]);
    R.RunsAppend(s.protocol, take, lost);
    steps := take + lost;
    assert u.queue.leases - {p} == map[];
    assert P.After(s.protocol, steps).queue == Q.Queue([Q.Bump(p)], [], map[]);
  }

  /** Worker 1 gets it again and fences the job. */
  lemma ThenFences(p: P.State, k: P.Key, principal: string, now: int) returns (steps: seq<P.Step>)
    requires k in p.jobs && p.jobs[k].status == Running && P.WorkerOf(p, 1) == P.Idle
    requires p.queue == Q.Queue([Q.Bump(R.FirstAttempt(k, principal))], [], map[])
    ensures P.Runs(p, steps)
    ensures
      var t := P.After(p, steps);
      k in t.jobs && t.jobs[k] == Fence(p.jobs[k], 2, now).value
  {
    hide P.Runs, P.After;
    var d := Q.Bump(R.FirstAttempt(k, principal));
    assert p.queue.queued == [] + [d];
    R.Receives(p, 1, [], d, now);
    var take, fence := [P.TakeDelivery(1, now), P.Inspect(1)], [P.TryFence(1, now), P.Settle(1)];
    R.Fences(P.After(p, take), 1, d, now);
    R.RunsAppend(p, take, fence);
    steps := take + fence;
  }

  ghost predicate NoAttach(steps: seq<Step>) { forall i :: 0 <= i < |steps| ==> !steps[i].Attach? }

  /**
   * No attachment is needed: a worker takes the delivery of the session's job and dies, the delivery comes back after its
   * lease expired, the next worker fences the job under the executing turn, and a second turn is granted.
   */
  lemma FenceLetsTwoExecute(k: P.Key, session: string, principal: string, now: int) returns (steps: seq<Step>)
    requires k.workspace != "" && k.job != ""
    ensures Runs(Start(k), steps) && NoAttach(steps)
    ensures ExecutingAt(After(Start(k), steps), 0) && ExecutingAt(After(Start(k), steps), 1)
  {
    hide Runs, After, P.Runs, P.After, SessionTurns.WithTurn, Lifted;
    Creates(k, session, principal, now);
    var create := [NewJob(k, session, principal, now)];
    var s := After(Start(k), create);
    Grants(s, "a", now);
    var s1 := After(s, [Grant("a", now)]);
    RunsAppend(Start(k), create, [Grant("a", now)]);
    var lost := TakenAndLost(s1, k, principal, now);
    var fence := ThenFences(P.After(s1.protocol, lost), k, principal, now);
    R.RunsAppend(s1.protocol, lost, fence);
    LiftedRuns(s1, lost + fence);
    LiftedOnly(lost + fence);
    var s2 := After(s1, Lifted(lost + fence));
    RunsAppend(Start(k), create + [Grant("a", now)], Lifted(lost + fence));
    Grants(s2, "b", now);
    steps := create + [Grant("a", now)] + Lifted(lost + fence);
    RunsAppend(Start(k), steps, [Grant("b", now)]);
    steps := steps + [Grant("b", now)];
  }

  // ---- A worker's end ----

  /** A worker enters the session's job before a turn is opened on it. */
  lemma WorkerFirst(k: P.Key, session: string, principal: string, now: int) returns (steps: seq<Step>)
    ensures Runs(Start(k), steps) && NoAttach(steps)
    ensures
      var t := After(Start(k), steps);
      && t.key == k && t.turns == [] && Present(t) && JobOf(t).status == Running && JobOf(t).turn == None
      && P.WorkerOf(t.protocol, 0).Inside? && P.KeyOf(P.WorkerOf(t.protocol, 0).p) == k
  {
    hide Runs, After, P.Runs, P.After, Lifted;
    Creates(k, session, principal, now);
    var create := [NewJob(k, session, principal, now)];
    var s := After(Start(k), create);
    var p := R.FirstAttempt(k, principal);
    var take, enter := [P.TakeDelivery(0, now), P.Inspect(0)], [P.TryFence(0, now), P.StartJob(0, now)];
    assert s.protocol.queue.queued == [] + [p];
    R.Receives(s.protocol, 0, [], p, now);
    R.Enters(P.After(s.protocol, take), 0, p, now);
    R.RunsAppend(s.protocol, take, enter);
    LiftedRuns(s, take + enter);
    LiftedOnly(take + enter);
    RunsAppend(Start(k), create, Lifted(take + enter));
    steps := create + Lifted(take + enter);
  }

  /** Its end then closes the job under an open turn. */
  lemma WorkerEnds(s: State, now: int)
    requires Present(s) && JobOf(s).status == Running && P.WorkerOf(s.protocol, 0).Inside?
    requires P.KeyOf(P.WorkerOf(s.protocol, 0).p) == s.key
    ensures Runs(s, [Of(P.BodyReturns(0, now))])
    ensures
      var t := After(s, [Of(P.BodyReturns(0, now))]);
      t.key == s.key && t.turns == s.turns && Present(t) && JobOf(t).status == Succeeded
  {
    hide Runs, After, P.FinishJob;
    RunsOne(s, Of(P.BodyReturns(0, now)));
    FinishedJob(s.protocol, 0, P.WorkerOf(s.protocol, 0).p, now, s.key);
  }

  /** Nor is a fence: a worker enters the job before the turn is opened, and its end closes the job under the turn. */
  lemma WorkerEndLetsTwoExecute(k: P.Key, session: string, principal: string, now: int) returns (steps: seq<Step>)
    ensures Runs(Start(k), steps) && NoAttach(steps)
    ensures ExecutingAt(After(Start(k), steps), 0) && ExecutingAt(After(Start(k), steps), 1)
  {
    hide Runs, After, SessionTurns.WithTurn;
    var first := WorkerFirst(k, session, principal, now);
    var s1 := After(Start(k), first);
    Grants(s1, "a", now);
    var s2 := After(s1, [Grant("a", now)]);
    RunsAppend(Start(k), first, [Grant("a", now)]);
    WorkerEnds(s2, now);
    var s3 := After(s2, [Of(P.BodyReturns(0, now))]);
    RunsAppend(Start(k), first + [Grant("a", now)], [Of(P.BodyReturns(0, now))]);
    Grants(s3, "b", now);
    steps := first + [Grant("a", now)] + [Of(P.BodyReturns(0, now))];
    RunsAppend(Start(k), steps, [Grant("b", now)]);
    steps := steps + [Grant("b", now)];
  }
}
