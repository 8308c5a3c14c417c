/** The layered, grouped executor: what a run does, step by step. */
module Engine {
  import opened Common
  import opened Graph
  import opened Templates
  import opened Workflow

  datatype Entry = Entry(id: Id, outcome: Outcome, layer: nat, parallel: bool)

  /** The mutable state of a run: recorded entries, outputs in recording order, dependency outcomes, failure flag. */
  datatype Run = Run(entries: seq<Entry>, outputs: seq<Field>, outcomes: map<Id, bool>, failed: bool)

  function Commit(run: Run, n: Id, o: Outcome, layer: nat, parallel: bool): Run {
    Run(run.entries + [Entry(n, o, layer, parallel)],
        run.outputs + [Field(n, OutputOf(o))],
        run.outcomes[n := Succeeded(o)],
        run.failed || (o.Attempted? && !o.success))
  }

  const NOTHING := Run([], [], map[], false)

  predicate AreNodes(plan: Plan, ids: seq<Id>) { forall n :: n in ids ==> n in plan.nodes }

  // ---- Blocked nodes ----

  function FailedDependencies(outcomes: map<Id, bool>, deps: seq<Id>): seq<Id> {
    if deps == [] then [] else
      (if deps[0] in outcomes && outcomes[deps[0]] then [] else [deps[0]]) + FailedDependencies(outcomes, deps[1..])
  }

  /** A layer after its blocked nodes were recorded; a node that is decided already is passed over. */
  function SkipRun(plan: Plan, run: Run, layer: seq<Id>, index: nat): Run
    requires AreNodes(plan, layer)
  {
    if layer == [] then run else
      var r, n := SkipRun(plan, run, layer[..|layer| - 1], index), layer[|layer| - 1];
      var failed := FailedDependencies(r.outcomes, plan.nodes[n].dependsOn);
      if n in r.outcomes || failed == [] then r else Commit(r, n, Blocked(failed), index, false)
  }

  /** The nodes of the layer that are left to run, in order. */
  function RunnableOf(plan: Plan, run: Run, layer: seq<Id>, index: nat): (ids: seq<Id>)
    requires AreNodes(plan, layer)
    ensures forall n :: n in ids ==> n in layer
  {
    if layer == [] then [] else
      var front, n := layer[..|layer| - 1], layer[|layer| - 1];
      var r := SkipRun(plan, run, front, index);
      if n in r.outcomes || FailedDependencies(r.outcomes, plan.nodes[n].dependsOn) != [] then RunnableOf(plan, run, front, index)
      else RunnableOf(plan, run, front, index) + [n]
  }

  /** Records the nodes whose dependencies did not all succeed and returns the others in order. */
  method SkipBlocked(plan: Plan, layer: seq<Id>, index: nat, run: Run) returns (r: Run, runnable: seq<Id>)
    requires AreNodes(plan, layer)
    ensures r == SkipRun(plan, run, layer, index)
    ensures runnable == RunnableOf(plan, run, layer, index)
  {
    r, runnable := run, [];
    var i := 0;
    while i < |layer|
      invariant i <= |layer|
      invariant r == SkipRun(plan, run, layer[..i], index) && runnable == RunnableOf(plan, run, layer[..i], index)
    {
      var n := layer[i];
      assert layer[..i + 1][..i] == layer[..i];
      if n !in r.outcomes {
        var failed := FailedDependencies(r.outcomes, plan.nodes[n].dependsOn);
        if failed == [] {
          runnable := runnable + [n];
        } else {
          r := Commit(r, n, Blocked(failed), index, false);
        }
      }
      i := i + 1;
    }
    assert layer[..|layer|] == layer;
  }

  // ---- Groups ----

  datatype Group = Group(parallel: bool, ids: seq<Id>)

  function Flatten(groups: seq<Group>): seq<Id> {
    if groups == [] then [] else Flatten(groups[..|groups| - 1]) + groups[|groups| - 1].ids
  }

  /** The arguments a call is judged by when groups are formed. */
  function Preview(plan: Plan, outputs: seq<Field>, n: Id): Value
    requires n in plan.nodes
  {
    match Resolve(plan.nodes[n].arguments, Scope(plan.input, outputs), plan.platform.show)
    case Ok(v) => v
    case Err(_) => plan.nodes[n].arguments
  }

  predicate PreviewReadOnly(plan: Plan, outputs: seq<Field>, n: Id)
    requires n in plan.nodes
  {
    plan.platform.readOnly(plan.nodes[n].tool, Preview(plan, outputs, n))
  }

  /** A group is a run of reads, or one write on its own. */
  ghost predicate GoodGroup(plan: Plan, outputs: seq<Field>, group: Group) {
    && group.ids != []
    && (forall n :: n in group.ids ==> n in plan.nodes && (PreviewReadOnly(plan, outputs, n) <==> group.parallel))
    && (!group.parallel ==> |group.ids| == 1)
  }

  /** Good groups in which reads are never split without a write between them. */
  ghost predicate GoodGroups(plan: Plan, outputs: seq<Field>, groups: seq<Group>) {
    && (forall i :: 0 <= i < |groups| ==> GoodGroup(plan, outputs, groups[i]))
    && (forall i :: 0 <= i < |groups| - 1 ==> !(groups[i].parallel && groups[i + 1].parallel))
  }

  lemma GoodGroupsAppend(plan: Plan, outputs: seq<Field>, groups: seq<Group>, group: Group)
    requires GoodGroups(plan, outputs, groups) && GoodGroup(plan, outputs, group)
    requires groups != [] && groups[|groups| - 1].parallel ==> !group.parallel
    ensures GoodGroups(plan, outputs, groups + [group])
    ensures Flatten(groups + [group]) == Flatten(groups) + group.ids
  {
    hide GoodGroup, Flatten;
    FlattenAppend(groups, group);
    var all := groups + [group];
    assert all[|groups|] == group && forall i :: 0 <= i < |groups| ==> all[i] == groups[i];
  }

  lemma FlattenAppend(groups: seq<Group>, group: Group)
    ensures Flatten(groups + [group]) == Flatten(groups) + group.ids
  {
  }

  predicate AllNodes(plan: Plan, groups: seq<Group>) { forall i :: 0 <= i < |groups| ==> AreNodes(plan, groups[i].ids) }

  /** A read joins the reads before it; a write, and a read behind a write, start a group. */
  function Extended(plan: Plan, outputs: seq<Field>, groups: seq<Group>, n: Id): (more: seq<Group>)
    requires n in plan.nodes && AllNodes(plan, groups)
    ensures AllNodes(plan, more)
  {
    if PreviewReadOnly(plan, outputs, n) && groups != [] && groups[|groups| - 1].parallel then
      groups[..|groups| - 1] + [Group(true, groups[|groups| - 1].ids + [n])]
    else groups + [Group(PreviewReadOnly(plan, outputs, n), [n])]
  }

  /** The groups of a layer's runnable nodes. */
  function Grouped(plan: Plan, outputs: seq<Field>, ids: seq<Id>): (groups: seq<Group>)
    requires AreNodes(plan, ids)
    ensures AllNodes(plan, groups)
  {
    if ids == [] then [] else Extended(plan, outputs, Grouped(plan, outputs, ids[..|ids| - 1]), ids[|ids| - 1])
  }

  lemma ExtendedIsGood(plan: Plan, outputs: seq<Field>, groups: seq<Group>, n: Id)
    requires n in plan.nodes && AllNodes(plan, groups) && GoodGroups(plan, outputs, groups)
    ensures GoodGroups(plan, outputs, Extended(plan, outputs, groups, n))
    ensures Flatten(Extended(plan, outputs, groups, n)) == Flatten(groups) + [n]
  {
    hide PreviewReadOnly, GoodGroups, Flatten;
    if PreviewReadOnly(plan, outputs, n) && groups != [] && groups[|groups| - 1].parallel {
      var rest, last := groups[..|groups| - 1], groups[|groups| - 1];
      assert groups == rest + [last];
      FlattenAppend(rest, last);
      GoodGroupsPrefix(plan, outputs, groups);
      LongerRead(plan, outputs, last, n);
      GoodGroupsAppend(plan, outputs, rest, Group(true, last.ids + [n]));
    } else {
      GoodGroupsAppend(plan, outputs, groups, Group(PreviewReadOnly(plan, outputs, n), [n]));
    }
  }

  lemma LongerRead(plan: Plan, outputs: seq<Field>, group: Group, n: Id)
    requires GoodGroup(plan, outputs, group) && group.parallel && n in plan.nodes && PreviewReadOnly(plan, outputs, n)
    ensures GoodGroup(plan, outputs, Group(true, group.ids + [n]))
  {
    hide PreviewReadOnly;
  }

  lemma GoodGroupsPrefix(plan: Plan, outputs: seq<Field>, groups: seq<Group>)
    requires GoodGroups(plan, outputs, groups) && groups != [] && groups[|groups| - 1].parallel
    ensures GoodGroups(plan, outputs, groups[..|groups| - 1]) && GoodGroup(plan, outputs, groups[|groups| - 1])
    ensures |groups| > 1 ==> !groups[|groups| - 2].parallel
  {
    hide GoodGroup;
    if |groups| > 1 { assert groups[|groups| - 2 + 1] == groups[|groups| - 1]; }
  }

  lemma NoGroups(plan: Plan, outputs: seq<Field>)
    ensures GoodGroups(plan, outputs, []) && Flatten([]) == []
  {
  }

  /** Groups concatenate back to the layer; each is a maximal run of reads or one write. */
  lemma {:induction false} GroupedIsGood(plan: Plan, outputs: seq<Field>, ids: seq<Id>)
    requires AreNodes(plan, ids)
    ensures Flatten(Grouped(plan, outputs, ids)) == ids && GoodGroups(plan, outputs, Grouped(plan, outputs, ids))
  {
    hide PreviewReadOnly, Extended, GoodGroups, Flatten, AllNodes;
    if ids == [] {
      NoGroups(plan, outputs);
    } else {
      GroupedIsGood(plan, outputs, ids[..|ids| - 1]);
      ExtendedIsGood(plan, outputs, Grouped(plan, outputs, ids[..|ids| - 1]), ids[|ids| - 1]);
    }
  }

  /** The groups so far with the pending reads as the last one. */
  function WithReads(groups: seq<Group>, pending: seq<Id>): seq<Group> {
    if pending == [] then groups else groups + [Group(true, pending)]
  }

  lemma PendingNext(plan: Plan, outputs: seq<Field>, groups: seq<Group>, pending: seq<Id>, n: Id)
    requires n in plan.nodes && AllNodes(plan, WithReads(groups, pending))
    requires groups != [] ==> !groups[|groups| - 1].parallel
    ensures Extended(plan, outputs, WithReads(groups, pending), n) ==
      if PreviewReadOnly(plan, outputs, n) then WithReads(groups, pending + [n])
      else WithReads(groups, pending) + [Group(false, [n])]
  {
    hide PreviewReadOnly;
    if pending == [] {
      assert pending + [n] == [n];
    } else {
      assert WithReads(groups, pending)[..|groups|] == groups;
    }
  }

  /** Splits a layer at its writes: reads between writes form groups, every write is a group of its own. */
  method GroupLayer(plan: Plan, runnable: seq<Id>, outputs: seq<Field>) returns (groups: seq<Group>)
    requires AreNodes(plan, runnable)
    ensures groups == Grouped(plan, outputs, runnable)
    ensures Flatten(groups) == runnable && GoodGroups(plan, outputs, groups)
  {
    hide PreviewReadOnly, GoodGroups, Flatten, Extended, AllNodes;
    groups := [];
    var readGroup: seq<Id> := [];
    var i := 0;
    while i < |runnable|
      invariant i <= |runnable|
      invariant Grouped(plan, outputs, runnable[..i]) == WithReads(groups, readGroup)
      invariant groups != [] ==> !groups[|groups| - 1].parallel
    {
      var n := runnable[i];
      assert runnable[..i + 1][..i] == runnable[..i];
      PendingNext(plan, outputs, groups, readGroup, n);
      if PreviewReadOnly(plan, outputs, n) {
        readGroup := readGroup + [n];
      } else {
        if readGroup != [] {
          groups, readGroup := groups + [Group(true, readGroup)], [];
        }
        groups := groups + [Group(false, [n])];
      }
      i := i + 1;
    }
    assert runnable[..|runnable|] == runnable;
    if readGroup != [] {
      groups := groups + [Group(true, readGroup)];
    }
    GroupedIsGood(plan, outputs, runnable);
  }

  // ---- Running ----

  function Ended(plan: Plan, outputs: seq<Field>, n: Id): Outcome
    requires n in plan.nodes
  {
    ExecuteNode(plan.platform, plan.nodes[n], plan.input, outputs)
  }

  /** Nodes that all ran against the same outputs, recorded in order. */
  function RunIds(plan: Plan, run: Run, outputs: seq<Field>, ids: seq<Id>, index: nat, parallel: bool): Run
    requires AreNodes(plan, ids)
  {
    if ids == [] then run else
      Commit(RunIds(plan, run, outputs, ids[..|ids| - 1], index, parallel), ids[|ids| - 1], Ended(plan, outputs, ids[|ids| - 1]), index, parallel)
  }

  function GroupRun(plan: Plan, run: Run, group: Group, index: nat): Run
    requires AreNodes(plan, group.ids)
  {
    RunIds(plan, run, run.outputs, group.ids, index, group.parallel && |group.ids| > 1)
  }

  function GroupsRun(plan: Plan, run: Run, groups: seq<Group>, index: nat): Run
    requires AllNodes(plan, groups)
  {
    if groups == [] then run else GroupRun(plan, GroupsRun(plan, run, groups[..|groups| - 1], index), groups[|groups| - 1], index)
  }

  function LayerRun(plan: Plan, run: Run, layer: seq<Id>, index: nat): Run
    requires AreNodes(plan, layer)
  {
    var r := SkipRun(plan, run, layer, index);
    GroupsRun(plan, r, Grouped(plan, r.outputs, RunnableOf(plan, run, layer, index)), index)
  }

  /** The run of the given layers. */
  function RunOf(plan: Plan, layers: seq<seq<Id>>): Run
    requires forall k :: 0 <= k < |layers| ==> AreNodes(plan, layers[k])
  {
    if layers == [] then NOTHING else LayerRun(plan, RunOf(plan, layers[..|layers| - 1]), layers[|layers| - 1], |layers|)
  }

  /** The nodes of a group finish in any order. */
  method Complete(plan: Plan, ids: seq<Id>, outputs: seq<Field>) returns (futures: map<Id, Outcome>)
    requires AreNodes(plan, ids)
    ensures forall n :: n in ids ==> n in futures && futures[n] == Ended(plan, outputs, n)
  {
    hide Ended;
    futures := map[];
    var pending := set n | n in ids;
    while pending != {}
      invariant forall n :: n in pending ==> n in ids
      invariant forall n :: n in ids && n !in pending ==> n in futures && futures[n] == Ended(plan, outputs, n)
      decreases pending
    {
      var n :| n in pending;
      futures := futures[n := Ended(plan, outputs, n)];
      pending := pending - {n};
    }
  }

  /** Runs one group and records its nodes in their order. */
  method RunGroup(plan: Plan, group: Group, index: nat, run: Run) returns (r: Run)
    requires AreNodes(plan, group.ids)
    ensures r == GroupRun(plan, run, group, index)
  {
    hide Ended, Commit;
    var futures := Complete(plan, group.ids, run.outputs);
    var parallel := group.parallel && |group.ids| > 1;
    r := run;
    var i := 0;
    while i < |group.ids|
      invariant i <= |group.ids| && r == RunIds(plan, run, run.outputs, group.ids[..i], index, parallel)
    {
      var n := group.ids[i];
      assert group.ids[..i + 1][..i] == group.ids[..i];
      r := Commit(r, n, futures[n], index, parallel);
      i := i + 1;
    }
    assert group.ids[..|group.ids|] == group.ids;
  }

  /** One layer: blocked nodes are recorded first, the others in groups. */
  method RunLayer(plan: Plan, layer: seq<Id>, index: nat, run: Run) returns (r: Run)
    requires AreNodes(plan, layer)
    ensures r == LayerRun(plan, run, layer, index)
  {
    hide GroupRun, Grouped, SkipRun, RunnableOf, GoodGroups, Flatten;
    var runnable;
    r, runnable := SkipBlocked(plan, layer, index, run);
    var skipped := r;
    var groups := GroupLayer(plan, runnable, r.outputs);
    var j := 0;
    while j < |groups|
      invariant j <= |groups| && r == GroupsRun(plan, skipped, groups[..j], index)
    {
      assert groups[..j + 1][..j] == groups[..j];
      r := RunGroup(plan, groups[j], index, r);
      j := j + 1;
    }
    assert groups[..|groups|] == groups;
  }

  /** The first layer from k on whose check finds a cancel request, or the number of layers. */
  function Reached(cancelRequested: nat -> bool, layers: nat, k: nat): (r: nat)
    requires k <= layers
    ensures k <= r <= layers
    ensures forall j :: k <= j < r ==> !cancelRequested(j)
    ensures r < layers ==> cancelRequested(r)
    decreases layers - k
  {
    if k == layers || cancelRequested(k) then k else Reached(cancelRequested, layers, k + 1)
  }

  /** The executor. `cancelRequested` answers the check made before each layer. */
  method Execute(plan: Plan, layers: seq<seq<Id>>, cancelRequested: nat -> bool) returns (status: string, run: Run)
    requires forall k :: 0 <= k < |layers| ==> AreNodes(plan, layers[k])
    ensures
      var reached := Reached(cancelRequested, |layers|, 0);
      && run == RunOf(plan, layers[..reached])
      && status == if reached < |layers| then "cancelled" else if run.failed then "failed" else "succeeded"
  {
    hide LayerRun;
    run := NOTHING;
    var k := 0;
    while k < |layers|
      invariant k <= |layers|
      invariant Reached(cancelRequested, |layers|, k) == Reached(cancelRequested, |layers|, 0)
      invariant run == RunOf(plan, layers[..k])
    {
      if cancelRequested(k) {
        status := "cancelled";
        return;
      }
      assert layers[..k + 1][..k] == layers[..k];
      run := RunLayer(plan, layers[k], k + 1, run);
      k := k + 1;
    }
    status := if run.failed then "failed" else "succeeded";
  }
}
