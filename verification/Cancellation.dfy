/** Run records, the durable cancel flag, and cancel requests racing with the executor. */
module Cancellation {
  import opened Common
  import opened Graph
  import W = Workflow
  import E = Refinement

  datatype RunRecord = RunRecord(status: string, cancelRequested: bool, nodes: seq<string>)

  predicate Terminal(r: RunRecord) { r.status != "running" && r.status != "queued" }

  predicate Flagged(durable: Option<RunRecord>) { durable.Some? && durable.value.cancelRequested }

  /** What a save writes: the given snapshot, with a cancel flag that is already durable carried over. */
  function Merged(durable: Option<RunRecord>, record: RunRecord): RunRecord {
    if Flagged(durable) then record.(cancelRequested := true) else record
  }

  /** The stored records of a workspace. */
  class RunStore {
    var runs: map<string, RunRecord>

    constructor ()
      ensures runs == map[]
    {
      runs := map[];
    }

    function Stored(id: string): Option<RunRecord>
      reads this
    {
      if id in runs then Some(runs[id]) else None
    }

    /** Merges the flag into the caller's snapshot and replaces the stored record with it. */
    method Save(id: string, record: RunRecord) returns (saved: RunRecord)
      modifies this
      ensures saved == Merged(old(Stored(id)), record)
      ensures saved == record.(cancelRequested := record.cancelRequested || (id in old(runs) && old(runs)[id].cancelRequested))
      ensures runs == old(runs)[id := saved]
      ensures old(Flagged(Stored(id))) ==> Flagged(Stored(id))
    {
      saved := record;
      if id in runs && runs[id].cancelRequested {
        saved := saved.(cancelRequested := true);
      }
      runs := runs[id := saved];
    }

    /** The reading half of a cancel request, made without the run lock. */
    method ReadForCancel(id: string) returns (snapshot: Option<RunRecord>)
      ensures snapshot == CancelSnapshot(Stored(id))
      ensures snapshot ==
        if id in runs && runs[id].status in {"running", "queued"} then Some(runs[id].(cancelRequested := true)) else None
    {
      snapshot := None;
      if id in runs && (runs[id].status == "running" || runs[id].status == "queued") {
        snapshot := Some(runs[id].(cancelRequested := true));
      }
    }
  }

  function CancelSnapshot(durable: Option<RunRecord>): Option<RunRecord> {
    if durable.Some? && !Terminal(durable.value) then Some(durable.value.(cancelRequested := true)) else None
  }

  // ---- One run, its executor and its cancelling clients ----

  datatype Phase = Checking | InLayer | Stopped

  /** `layer` layers are behind the executor and `done` nodes of the present one; `local` is its own copy of the record. */
  datatype State = State(
    durable: Option<RunRecord>,
    local: RunRecord,
    phase: Phase,
    layer: nat,
    done: nat,
    started: seq<nat>,             // layers started so far
    clients: map<nat, RunRecord>)  // snapshots read by cancel requests that did not save yet

  datatype Step =
    | Check(jobCancelled: bool)
    | RecordNext
    | SaveRun
    | NextLayer
    | Finish(failed: bool)
    | CancelRead(client: nat)
    | CancelSave(client: nat)

  const START := State(None, RunRecord("running", false, []), Checking, 0, 0, [], map[])

  /** `schedule` lists what the executor records, layer by layer. */
  predicate Enabled(s: State, step: Step, schedule: seq<seq<string>>) {
    match step
    case Check(_) => s.phase == Checking && s.layer < |schedule|
    case RecordNext => s.phase == InLayer && s.layer < |schedule| && s.done < |schedule[s.layer]|
    case SaveRun => true
    case NextLayer => s.phase == InLayer && s.layer < |schedule| && s.done == |schedule[s.layer]|
    case Finish(_) => s.phase == Checking && s.layer >= |schedule|
    case CancelRead(c) => CancelSnapshot(s.durable).Some?
    case CancelSave(c) => c in s.clients
  }

  function Apply(s: State, step: Step, schedule: seq<seq<string>>): State
    requires Enabled(s, step, schedule)
  {
    match step
    case Check(jobCancelled) =>
      if Flagged(s.durable) || jobCancelled then s.(local := s.local.(status := "cancelled"), phase := Stopped)
      else s.(phase := InLayer, started := s.started + [s.layer])
    case RecordNext => s.(local := s.local.(nodes := s.local.nodes + [schedule[s.layer][s.done]]), done := s.done + 1)
    case SaveRun =>
      var saved := Merged(s.durable, s.local);
      s.(durable := Some(saved), local := saved)
    case NextLayer => s.(phase := Checking, layer := s.layer + 1, done := 0)
    case Finish(failed) => s.(local := s.local.(status := if failed then "failed" else "succeeded"), phase := Stopped)
    case CancelRead(c) => s.(clients := s.clients[c := CancelSnapshot(s.durable).value])
    case CancelSave(c) => s.(durable := Some(Merged(s.durable, s.clients[c])), clients := s.clients - {c})
  }

  /** A sequence of steps that can be taken one after the other. */
  ghost predicate Runs(s: State, steps: seq<Step>, schedule: seq<seq<string>>)
    decreases |steps|
  {
    steps == [] || (Enabled(s, steps[0], schedule) && Runs(Apply(s, steps[0], schedule), steps[1..], schedule))
  }

  ghost function After(s: State, steps: seq<Step>, schedule: seq<seq<string>>): State
    requires Runs(s, steps, schedule)
    decreases |steps|
  {
    if steps == [] then s else After(Apply(s, steps[0], schedule), steps[1..], schedule)
  }

  // ---- What every interleaving keeps ----

  /** The executor has recorded exactly its schedule up to where it is. */
  ghost predicate OnSchedule(s: State, schedule: seq<seq<string>>) {
    && s.layer <= |schedule|
    && (if s.phase == InLayer then
          s.layer < |schedule| && s.done <= |schedule[s.layer]|
          && s.local.nodes == Concat(schedule[..s.layer]) + schedule[s.layer][..s.done]
        else s.done == 0 && s.local.nodes == Concat(schedule[..s.layer]))
    && (if s.phase == Stopped then
          if s.layer < |schedule| then s.local.status == "cancelled" else s.local.status in {"succeeded", "failed"}
        else s.local.status == "running")
  }

  /** Every stored or read copy of the record is an earlier state of the executor's; cancel requests hold unfinished ones. */
  ghost predicate CopiesBehind(s: State) {
    && (s.durable.Some? ==> Behind(s.durable.value, s))
    && (forall c :: c in s.clients ==> Behind(s.clients[c], s) && !Terminal(s.clients[c]) && s.clients[c].cancelRequested)
  }

  ghost predicate Behind(r: RunRecord, s: State) {
    r.nodes <= s.local.nodes && (Terminal(r) ==> s.phase == Stopped && r.status == s.local.status && r.nodes == s.local.nodes)
  }

  lemma ScheduleStep(s: State, step: Step, schedule: seq<seq<string>>)
    requires OnSchedule(s, schedule) && Enabled(s, step, schedule)
    ensures OnSchedule(Apply(s, step, schedule), schedule)
  {
    if step.NextLayer? {
      ConcatNext(schedule, s.layer);
      assert schedule[s.layer][..s.done] == schedule[s.layer];
    }
    if step.RecordNext? {
      assert schedule[s.layer][..s.done + 1] == schedule[s.layer][..s.done] + [schedule[s.layer][s.done]];
    }
    if step.Check? { assert schedule[s.layer][..0] == []; }
  }

  lemma CopiesStep(s: State, step: Step, schedule: seq<seq<string>>)
    requires OnSchedule(s, schedule) && CopiesBehind(s) && Enabled(s, step, schedule)
    ensures CopiesBehind(Apply(s, step, schedule))
  {
    hide Concat;
  }

  lemma {:induction false} RunKeeps(s: State, steps: seq<Step>, schedule: seq<seq<string>>)
    requires OnSchedule(s, schedule) && CopiesBehind(s) && Runs(s, steps, schedule)
    ensures OnSchedule(After(s, steps, schedule), schedule) && CopiesBehind(After(s, steps, schedule))
    decreases |steps|
  {
    hide OnSchedule, CopiesBehind, Apply, Enabled;
    if steps != [] {
      ScheduleStep(s, steps[0], schedule);
      CopiesStep(s, steps[0], schedule);
      RunKeeps(Apply(s, steps[0], schedule), steps[1..], schedule);
    }
  }

  lemma StartHolds(schedule: seq<seq<string>>)
    ensures OnSchedule(START, schedule) && CopiesBehind(START)
  {
    assert schedule[..0] == [];
  }

  /** In every interleaving the stored nodes are a prefix of the executor's, and those a prefix of the schedule. */
  lemma StoredIsPrefix(steps: seq<Step>, schedule: seq<seq<string>>)
    requires Runs(START, steps, schedule)
    ensures
      var t := After(START, steps, schedule);
      && t.layer <= |schedule| && Concat(schedule[..t.layer]) <= t.local.nodes <= Concat(schedule)
      && (t.durable.Some? ==> t.durable.value.nodes <= t.local.nodes)
      && (t.phase == Stopped ==> t.local.nodes == Concat(schedule[..t.layer]))
      && (t.phase == Stopped ==> (t.local.status == "cancelled" <==> t.layer < |schedule|))
  {
    StartHolds(schedule);
    RunKeeps(START, steps, schedule);
    var t := After(START, steps, schedule);
    ConcatPrefix(schedule, t.layer);
    if t.phase == InLayer {
      ConcatPrefix(schedule, t.layer + 1);
      ConcatNext(schedule, t.layer);
    }
  }

  lemma {:induction false} ConcatPrefix(parts: seq<seq<string>>, k: nat)
    requires k <= |parts|
    ensures Concat(parts[..k]) <= Concat(parts)
    decreases |parts| - k
  {
    if k == |parts| {
      assert parts[..k] == parts;
    } else {
      ConcatPrefix(parts, k + 1);
      ConcatNext(parts, k);
    }
  }

  /**
   * In every interleaving with cancel requests the executor, once stopped, has recorded exactly the nodes of the layers
   * behind it, each once: the record that the run of the engine with the same checks makes.
   */
  lemma StoppedRecordsLayers(plan: W.Plan, layers: seq<seq<Id>>, rank: map<Id, nat>, steps: seq<Step>)
    requires W.WellFormed(plan.nodes) && Layered(W.GraphOf(plan.nodes), layers, rank)
    requires forall k, n :: 0 <= k < |layers| && n in layers[k] ==> n in plan.nodes
    requires Runs(START, steps, E.Schedule(plan, layers)) && After(START, steps, E.Schedule(plan, layers)).phase == Stopped
    ensures
      var t := After(START, steps, E.Schedule(plan, layers));
      && t.layer <= |layers|
      && t.local.nodes == Concat(E.Schedule(plan, layers)[..t.layer])
      && (forall n :: n in t.local.nodes <==> n in E.Below(rank, t.layer)) && Distinct(t.local.nodes)
  {
    hide W.WellFormed, Layered, E.Schedule, E.Below;
    var t := After(START, steps, E.Schedule(plan, layers));
    assert |E.Schedule(plan, layers)| == |layers| by { E.ScheduleLength(plan, layers); }
    StoredIsPrefix(steps, E.Schedule(plan, layers));
    E.ScheduleMembers(plan, layers, rank, t.layer);
  }

  /** Layers start in order, each once, and what the executor ends with is what its last step was told. */
  lemma {:induction false} StartsInOrder(s: State, steps: seq<Step>, schedule: seq<seq<string>>)
    requires Runs(s, steps, schedule) && InOrder(s)
    ensures InOrder(After(s, steps, schedule))
    ensures s.phase != Stopped && After(s, steps, schedule).phase == Stopped ==>
      (After(s, steps, schedule).local.status == "failed" <==> Finish(true) in steps)
    ensures s.phase == Stopped ==> After(s, steps, schedule).local.status == s.local.status && Finish(true) !in steps
    decreases |steps|
  {
    if steps != [] {
      assert steps == [steps[0]] + steps[1..];
      StartsInOrder(Apply(s, steps[0], schedule), steps[1..], schedule);
    }
  }

  ghost predicate InOrder(s: State) {
    && |s.started| == (if s.phase == InLayer then s.layer + 1 else s.layer)
    && forall k :: 0 <= k < |s.started| ==> s.started[k] == k
  }

  // ---- The cancel flag ----

  /** Once durable, the cancel flag survives every save from every stale snapshot, and no further layer starts. */
  lemma {:induction false} CancelIsForever(s: State, steps: seq<Step>, schedule: seq<seq<string>>)
    requires Runs(s, steps, schedule) && Flagged(s.durable)
    ensures Flagged(After(s, steps, schedule).durable)
    ensures After(s, steps, schedule).started == s.started
    decreases |steps|
  {
    if steps != [] {
      CancelIsForever(Apply(s, steps[0], schedule), steps[1..], schedule);
    }
  }

  /** A completed cancel request is durable, whatever the executor saved in between. */
  lemma {:induction false} CancelRequestLands(s: State, client: nat, between: seq<Step>, schedule: seq<seq<string>>)
    requires Enabled(s, CancelRead(client), schedule)
    requires Runs(Apply(s, CancelRead(client), schedule), between, schedule)
    requires forall i :: 0 <= i < |between| ==> between[i] != CancelSave(client)
    ensures
      var t := After(Apply(s, CancelRead(client), schedule), between, schedule);
      && Enabled(t, CancelSave(client), schedule) && Flagged(Apply(t, CancelSave(client), schedule).durable)
      && client !in Apply(t, CancelSave(client), schedule).clients
  {
    SnapshotKept(Apply(s, CancelRead(client), schedule), client, between, schedule);
  }

  lemma {:induction false} SnapshotKept(s: State, client: nat, steps: seq<Step>, schedule: seq<seq<string>>)
    requires Runs(s, steps, schedule) && client in s.clients && s.clients[client].cancelRequested
    requires forall i :: 0 <= i < |steps| ==> steps[i] != CancelSave(client)
    ensures
      var t := After(s, steps, schedule);
      client in t.clients && t.clients[client].cancelRequested
    decreases |steps|
  {
    if steps != [] {
      SnapshotKept(Apply(s, steps[0], schedule), client, steps[1..], schedule);
    }
  }

  // ---- The stored result ----

  /** The executor has stopped and its result is stored. */
  ghost predicate Finished(s: State) {
    s.phase == Stopped && s.durable.Some? && s.durable.value.status == s.local.status && s.durable.value.nodes == s.local.nodes
  }

  ghost predicate Kept(s: State, t: State) {
    t.durable.Some? && t.durable.value.status == s.local.status && t.durable.value.nodes == s.local.nodes
  }

  ghost predicate KeptForever(s: State, schedule: seq<seq<string>>) {
    forall steps :: Runs(s, steps, schedule) ==> Kept(s, After(s, steps, schedule))
  }

  /** What a stale cancel request overwrote is stored again by the executor's last save. */
  lemma LastSaveRestores(steps: seq<Step>, schedule: seq<seq<string>>)
    requires Runs(START, steps, schedule) && After(START, steps, schedule).phase == Stopped
    ensures
      var t := After(START, steps, schedule);
      && Finished(Apply(t, SaveRun, schedule)) && Terminal(Apply(t, SaveRun, schedule).durable.value)
      && Apply(t, SaveRun, schedule).durable == Some(Apply(t, SaveRun, schedule).local)
  {
    StartHolds(schedule);
    RunKeeps(START, steps, schedule);
  }

  /** The stored result is kept in every continuation if and only if no cancel request still holds an older snapshot. */
  lemma KeptForeverExactly(before: seq<Step>, schedule: seq<seq<string>>)
    requires Runs(START, before, schedule) && Finished(After(START, before, schedule))
    ensures
      var s := After(START, before, schedule);
      KeptForever(s, schedule) <==> s.clients == map[]
  {
    StartHolds(schedule);
    RunKeeps(START, before, schedule);
    var s := After(START, before, schedule);
    if s.clients == map[] {
      forall steps | Runs(s, steps, schedule) ensures Kept(s, After(s, steps, schedule)) {
        StaysFinished(s, steps, schedule);
      }
    } else {
      var c :| c in s.clients;
      RunsOne(s, CancelSave(c), schedule);
      assert !Kept(s, After(s, [CancelSave(c)], schedule));
    }
  }

  lemma RunsOne(s: State, step: Step, schedule: seq<seq<string>>)
    requires Enabled(s, step, schedule)
    ensures Runs(s, [step], schedule) && After(s, [step], schedule) == Apply(s, step, schedule)
  {
    RunsStep(s, step, [], schedule);
    assert [step] + [] == [step];
  }

  lemma RunsStep(s: State, step: Step, rest: seq<Step>, schedule: seq<seq<string>>)
    requires Enabled(s, step, schedule) && Runs(Apply(s, step, schedule), rest, schedule)
    ensures Runs(s, [step] + rest, schedule) && After(s, [step] + rest, schedule) == After(Apply(s, step, schedule), rest, schedule)
  {
    assert ([step] + rest)[1..] == rest;
  }

  lemma {:induction false} StaysFinished(s: State, steps: seq<Step>, schedule: seq<seq<string>>)
    requires Runs(s, steps, schedule) && Finished(s) && Terminal(s.local) && s.clients == map[]
    ensures Kept(s, After(s, steps, schedule)) && After(s, steps, schedule).clients == map[]
    decreases |steps|
  {
    if steps != [] {
      StaysFinished(Apply(s, steps[0], schedule), steps[1..], schedule);
    }
  }

  /**
   * The failing run, for a workflow of one node: a cancel request reads the record, the executor completes and stores
   * its result, and the request then puts the run back to running with nothing recorded.
   */
  lemma LateCancelRollsBack(node: string) returns (steps: seq<Step>)
    ensures Runs(START, steps, [[node]])
    ensures
      var t := After(START, steps, [[node]]);
      && t.phase == Stopped && t.local.status == "succeeded" && t.local.nodes == [node]
      && t.durable == Some(RunRecord("running", true, []))
  {
    hide Runs, After;
    var schedule := [[node]];
    var s1 := Apply(START, SaveRun, schedule);
    var s2 := Apply(s1, CancelRead(0), schedule);
    var read := RunRecord("running", true, []);
    assert s2 == State(Some(START.local), START.local, Checking, 0, 0, [], map[0 := read]);
    var s3 := Apply(s2, Check(false), schedule);
    var s4 := Apply(s3, RecordNext, schedule);
    var s5 := Apply(s4, NextLayer, schedule);
    assert s5 == State(Some(START.local), RunRecord("running", false, [node]), Checking, 1, 0, [0], map[0 := read]);
    var s6 := Apply(s5, Finish(false), schedule);
    var s7 := Apply(s6, SaveRun, schedule);
    RunsOne(s7, CancelSave(0), schedule);
    RunsStep(s6, SaveRun, [CancelSave(0)], schedule);
    steps := [SaveRun] + [CancelSave(0)];
    RunsStep(s5, Finish(false), steps, schedule);
    steps := [Finish(false)] + steps;
    RunsStep(s4, NextLayer, steps, schedule);
    steps := [NextLayer] + steps;
    RunsStep(s3, RecordNext, steps, schedule);
    steps := [RecordNext] + steps;
    RunsStep(s2, Check(false), steps, schedule);
    steps := [Check(false)] + steps;
    RunsStep(s1, CancelRead(0), steps, schedule);
    steps := [CancelRead(0)] + steps;
    RunsStep(START, SaveRun, steps, schedule);
    steps := [SaveRun] + steps;
  }
}
