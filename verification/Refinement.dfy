/** The executor agrees with the recursive meaning of a run. */
module Refinement {
  import opened Common
  import opened Ordering
  import opened Graph
  import opened Templates
  import opened Workflow
  import opened Engine

  // ---- What is recorded agrees with the meaning ----

  ghost predicate EntriesMatch(plan: Plan, entries: seq<Entry>, done: set<Id>)
    requires WellFormed(plan.nodes) && done <= plan.nodes.Keys
  {
    && (forall i, j :: 0 <= i < j < |entries| ==> entries[i].id != entries[j].id)
    && (forall i :: 0 <= i < |entries| ==> entries[i].id in done && entries[i].outcome == Meaning(plan, entries[i].id))
    && (forall n :: n in done ==> exists i :: 0 <= i < |entries| && entries[i].id == n)
  }

  ghost predicate OutputsMatch(plan: Plan, outputs: seq<Field>, done: set<Id>)
    requires WellFormed(plan.nodes) && done <= plan.nodes.Keys
  {
    && IdKeys(outputs)
    && (forall n :: n in done ==> Find(outputs, n) == Some(OutputOf(Meaning(plan, n))))
    && (forall n :: n !in done ==> Find(outputs, n) == None)
  }

  ghost predicate OutcomesMatch(plan: Plan, outcomes: map<Id, bool>, done: set<Id>)
    requires WellFormed(plan.nodes) && done <= plan.nodes.Keys
  {
    outcomes.Keys == done && forall n :: n in done ==> outcomes[n] == Succeeded(Meaning(plan, n))
  }

  ghost predicate SomeFailed(plan: Plan, done: set<Id>)
    requires WellFormed(plan.nodes) && done <= plan.nodes.Keys
  {
    exists n :: n in done && Meaning(plan, n).Attempted? && !Meaning(plan, n).success
  }

  /** Exactly the nodes of `done` are recorded, each once and with its meaning. */
  ghost predicate Recorded(plan: Plan, run: Run, done: set<Id>)
    requires WellFormed(plan.nodes)
  {
    && done <= plan.nodes.Keys
    && EntriesMatch(plan, run.entries, done)
    && OutputsMatch(plan, run.outputs, done)
    && OutcomesMatch(plan, run.outcomes, done)
    && (run.failed <==> SomeFailed(plan, done))
  }

  lemma {:induction false} FindAppend(outputs: seq<Field>, f: Field, key: string)
    ensures Find(outputs + [f], key) ==
      if Find(outputs, key).Some? then Find(outputs, key) else if f.key == key then Some(f.value) else None
  {
    if outputs == [] {
      assert outputs + [f] == [f] && [f][1..] == [];
    } else {
      assert (outputs + [f])[1..] == outputs[1..] + [f];
      FindAppend(outputs[1..], f, key);
    }
  }

  lemma CommitOutputs(plan: Plan, outputs: seq<Field>, done: set<Id>, n: Id)
    requires WellFormed(plan.nodes) && done <= plan.nodes.Keys && n in plan.nodes && n !in done
    requires OutputsMatch(plan, outputs, done)
    ensures OutputsMatch(plan, outputs + [Field(n, OutputOf(Meaning(plan, n)))], done + {n})
  {
    hide Meaning, IdShaped, Closed, Acyclic;
    var f := Field(n, OutputOf(Meaning(plan, n)));
    assert IdShaped(f.key);
    forall x ensures Find(outputs + [f], x) ==
      if Find(outputs, x).Some? then Find(outputs, x) else if f.key == x then Some(f.value) else None
    {
      FindAppend(outputs, f, x);
    }
  }

  lemma CommitEntries(plan: Plan, entries: seq<Entry>, done: set<Id>, e: Entry)
    requires WellFormed(plan.nodes) && done <= plan.nodes.Keys && e.id in plan.nodes && e.id !in done
    requires EntriesMatch(plan, entries, done) && e.outcome == Meaning(plan, e.id)
    ensures EntriesMatch(plan, entries + [e], done + {e.id})
  {
    hide Meaning, WellFormed;
    var more := entries + [e];
    forall n | n in done + {e.id} ensures exists i :: 0 <= i < |more| && more[i].id == n {
      if n in done {
        var i :| 0 <= i < |entries| && entries[i].id == n;
        assert more[i].id == n;
      } else {
        assert more[|entries|].id == n;
      }
    }
  }

  lemma CommitKeeps(plan: Plan, run: Run, done: set<Id>, n: Id, layer: nat, parallel: bool)
    requires WellFormed(plan.nodes) && Recorded(plan, run, done) && n in plan.nodes && n !in done
    ensures Recorded(plan, Commit(run, n, Meaning(plan, n), layer, parallel), done + {n})
  {
    hide Meaning, WellFormed, EntriesMatch, OutputsMatch, Succeeded;
    var o := Meaning(plan, n);
    CommitOutputs(plan, run.outputs, done, n);
    CommitEntries(plan, run.entries, done, Entry(n, o, layer, parallel));
    if SomeFailed(plan, done + {n}) {
      var m :| m in done + {n} && Meaning(plan, m).Attempted? && !Meaning(plan, m).success;
      assert m == n || SomeFailed(plan, done);
    }
    if SomeFailed(plan, done) {
      var m :| m in done && Meaning(plan, m).Attempted? && !Meaning(plan, m).success;
      assert m in done + {n};
    }
    if o.Attempted? && !o.success { assert n in done + {n}; }
  }

  // ---- Executing a node against the recorded outputs is its meaning ----

  lemma AncestorOutputs(plan: Plan, outputs: seq<Field>, done: set<Id>, n: Id)
    requires WellFormed(plan.nodes) && done <= plan.nodes.Keys && n in plan.nodes
    requires OutputsMatch(plan, outputs, done) && AncestorSet(GraphOf(plan.nodes), n) <= done
    ensures
      var ancestors := AncestorSet(GraphOf(plan.nodes), n);
      var alone := Outputs(plan, n, Listed(ancestors));
      IdKeys(alone) && AgreeOn(outputs, alone, ancestors)
  {
    hide Meaning, Outputs, AncestorSet, IdShaped, Acyclic, Closed, Listed;
    var ancestors := AncestorSet(GraphOf(plan.nodes), n);
    OutputsOf(plan, n, Listed(ancestors), n);
    forall x | x in ancestors ensures Find(outputs, x) == Find(Outputs(plan, n, Listed(ancestors)), x) {
      OutputsOf(plan, n, Listed(ancestors), x);
    }
  }

  /** The arguments and the condition of a node resolve, errors included, as they do against its ancestors alone. */
  lemma ResolvesAlone(plan: Plan, outputs: seq<Field>, done: set<Id>, n: Id)
    requires WellFormed(plan.nodes) && TemplatesStable(plan.nodes)
    requires done <= plan.nodes.Keys && n in plan.nodes
    requires OutputsMatch(plan, outputs, done) && AncestorSet(GraphOf(plan.nodes), n) <= done
    ensures
      var alone := Outputs(plan, n, Listed(AncestorSet(GraphOf(plan.nodes), n)));
      var node := plan.nodes[n];
      && Resolve(node.arguments, Scope(plan.input, outputs), plan.platform.show)
           == Resolve(node.arguments, Scope(plan.input, alone), plan.platform.show)
      && Resolve(node.when, Scope(plan.input, outputs), plan.platform.show)
           == Resolve(node.when, Scope(plan.input, alone), plan.platform.show)
  {
    hide Meaning, Outputs, AncestorSet, WellFormed, Listed, Resolve, Scope, AllStable, IdKeys, GraphOf;
    AncestorOutputs(plan, outputs, done, n);
    assert IdKeys(outputs) by { MatchIdKeys(plan, outputs, done); }
    var node := plan.nodes[n];
    var ancestors := AncestorSet(GraphOf(plan.nodes), n);
    var alone := Outputs(plan, n, Listed(ancestors));
    ResolveAgrees(node.arguments, ancestors, plan.input, outputs, alone, plan.platform.show);
    ResolveAgrees(node.when, ancestors, plan.input, outputs, alone, plan.platform.show);
  }

  lemma MatchIdKeys(plan: Plan, outputs: seq<Field>, done: set<Id>)
    requires WellFormed(plan.nodes) && done <= plan.nodes.Keys && OutputsMatch(plan, outputs, done)
    ensures IdKeys(outputs)
  {
  }

  lemma ExecutesMeaning(plan: Plan, outputs: seq<Field>, done: set<Id>, n: Id)
    requires WellFormed(plan.nodes) && TemplatesStable(plan.nodes)
    requires done <= plan.nodes.Keys && n in plan.nodes
    requires OutputsMatch(plan, outputs, done) && AncestorSet(GraphOf(plan.nodes), n) <= done
    requires Meaning(plan, n).Attempted?
    ensures ExecuteNode(plan.platform, plan.nodes[n], plan.input, outputs) == Meaning(plan, n)
  {
    hide Outputs, Failing, AncestorSet, WellFormed, TemplatesStable, Listed, Resolve, Scope, OutputsMatch, InvokeNode;
    ResolvesAlone(plan, outputs, done, n);
  }

  // ---- One layer ----

  /** A node that may be decided now: unrecorded, with all its ancestors recorded. */
  ghost predicate Decidable(plan: Plan, done: set<Id>, n: Id) {
    n in plan.nodes && n !in done && AncestorSet(GraphOf(plan.nodes), n) <= done
  }

  lemma NotYetDecided(plan: Plan, done: set<Id>, n: Id)
    requires Decidable(plan, done, n)
    ensures n !in done
  {
  }

  lemma DecidableLater(plan: Plan, done: set<Id>, later: set<Id>, n: Id)
    requires Decidable(plan, done, n) && done <= later && n !in later
    ensures Decidable(plan, later, n)
  {
  }

  /** Entries carry their layer, and a node that ran in parallel only made a read-only call. */
  ghost predicate Orchestrated(plan: Plan, rank: map<Id, nat>, entries: seq<Entry>) {
    forall i :: 0 <= i < |entries| ==> EntryPlaced(plan, rank, entries[i])
  }

  ghost predicate EntryPlaced(plan: Plan, rank: map<Id, nat>, e: Entry) {
    && e.id in rank && e.layer == rank[e.id] + 1
    && (e.parallel ==> e.id in plan.nodes && CallReadOnly(plan.platform, plan.nodes[e.id], e.outcome))
  }

  predicate CallReadOnly(p: Platform, node: Node, o: Outcome) {
    o.Attempted? && o.call.Some? ==> p.readOnly(node.tool, o.call.value)
  }

  lemma {:induction false} FailedDependenciesAre(plan: Plan, outcomes: map<Id, bool>, done: set<Id>, n: Id, deps: seq<Id>)
    requires WellFormed(plan.nodes) && done <= plan.nodes.Keys && n in plan.nodes
    requires OutcomesMatch(plan, outcomes, done)
    requires forall d :: d in deps ==> d in plan.nodes[n].dependsOn && d in done
    ensures FailedDependencies(outcomes, deps) == Failing(plan, n, deps)
  {
    hide Meaning, Succeeded, WellFormed;
    if deps != [] { FailedDependenciesAre(plan, outcomes, done, n, deps[1..]); }
  }

  /** The recorded dependency outcomes decide whether a node is blocked, exactly as its meaning does. */
  lemma BlockedAgrees(plan: Plan, run: Run, done: set<Id>, n: Id)
    requires WellFormed(plan.nodes) && Recorded(plan, run, done) && Decidable(plan, done, n)
    ensures
      var failed := FailedDependencies(run.outcomes, plan.nodes[n].dependsOn);
      if failed == [] then Meaning(plan, n).Attempted? else Meaning(plan, n) == Blocked(failed)
  {
    hide EntriesMatch, OutputsMatch, OutcomesMatch, SomeFailed, Outputs, Failing, Acyclic, Reaches, InvokeNode, Resolve;
    var g := GraphOf(plan.nodes);
    forall d | d in plan.nodes[n].dependsOn ensures d in done {
      assert d in g[n];
      DependencyReached(g, n, d);
      assert d in AncestorSet(g, n);
    }
    FailedDependenciesAre(plan, run.outcomes, done, n, plan.nodes[n].dependsOn);
  }

  ghost function AttemptedIn(plan: Plan, layer: seq<Id>): (r: seq<Id>)
    requires WellFormed(plan.nodes) && forall n :: n in layer ==> n in plan.nodes
    ensures forall n :: n in r <==> n in layer && Meaning(plan, n).Attempted?
  {
    if layer == [] then [] else
      var rest, last := AttemptedIn(plan, layer[..|layer| - 1]), layer[|layer| - 1];
      assert layer == layer[..|layer| - 1] + [last];
      if Meaning(plan, last).Attempted? then rest + [last] else rest
  }

  /** The blocked nodes of a layer in layer order. */
  ghost function BlockedOrder(plan: Plan, layer: seq<Id>): seq<Id>
    requires WellFormed(plan.nodes) && forall n :: n in layer ==> n in plan.nodes
  {
    if layer == [] then [] else
      var rest, last := BlockedOrder(plan, layer[..|layer| - 1]), layer[|layer| - 1];
      if Meaning(plan, last).Attempted? then rest else rest + [last]
  }

  /** The order in which a layer is recorded: its blocked nodes first, then the attempted ones. */
  ghost function RecordedOrder(plan: Plan, layer: seq<Id>): seq<Id>
    requires WellFormed(plan.nodes) && forall n :: n in layer ==> n in plan.nodes
  {
    BlockedOrder(plan, layer) + AttemptedIn(plan, layer)
  }

  /** The recording order of every layer, decided by the definition, the input and the platform alone. */
  ghost function Schedule(plan: Plan, layers: seq<seq<Id>>): seq<seq<Id>>
    requires WellFormed(plan.nodes) && forall k, n :: 0 <= k < |layers| && n in layers[k] ==> n in plan.nodes
  {
    seq(|layers|, k requires 0 <= k < |layers| => assert forall n :: n in layers[k] ==> n in plan.nodes; RecordedOrder(plan, layers[k]))
  }

  function EntryIds(entries: seq<Entry>): seq<Id> {
    if entries == [] then [] else EntryIds(entries[..|entries| - 1]) + [entries[|entries| - 1].id]
  }

  lemma EntryIdsNext(entries: seq<Entry>, e: Entry)
    ensures EntryIds(entries + [e]) == EntryIds(entries) + [e.id]
  {
    assert (entries + [e])[..|entries|] == entries;
  }

  ghost function BlockedIn(plan: Plan, layer: seq<Id>): set<Id>
    requires WellFormed(plan.nodes) && forall n :: n in layer ==> n in plan.nodes
  {
    set n | n in layer && Meaning(plan, n).Blocked?
  }

  lemma Undecided(plan: Plan, run: Run, done: set<Id>, n: Id)
    requires WellFormed(plan.nodes) && Recorded(plan, run, done)
    ensures n in run.outcomes <==> n in done
  {
  }

  /** Skipping records exactly the blocked nodes of the layer and leaves the others in order. */
  lemma {:induction false} SkipRecorded(plan: Plan, layer: seq<Id>, index: nat, run: Run, done: set<Id>, rank: map<Id, nat>)
    requires WellFormed(plan.nodes) && Recorded(plan, run, done) && Orchestrated(plan, rank, run.entries)
    requires Distinct(layer)
    requires forall n :: n in layer ==> n in plan.nodes && Decidable(plan, done, n)
    requires forall n :: n in layer ==> n in rank && index == rank[n] + 1
    ensures
      var r := SkipRun(plan, run, layer, index);
      && Recorded(plan, r, done + BlockedIn(plan, layer)) && Orchestrated(plan, rank, r.entries)
      && RunnableOf(plan, run, layer, index) == AttemptedIn(plan, layer)
      && EntryIds(r.entries) == EntryIds(run.entries) + BlockedOrder(plan, layer)
  {
    hide Recorded, Meaning, WellFormed, Orchestrated, AncestorSet, GraphOf, BlockedIn, EntryIds, FailedDependencies, Decidable;
    if layer == [] {
      NoneBlocked(plan);
      assert done + {} == done;
    } else {
      var front, n := layer[..|layer| - 1], layer[|layer| - 1];
      SkipRecorded(plan, front, index, run, done, rank);
      var r := SkipRun(plan, run, front, index);
      var now := done + BlockedIn(plan, front);
      LastInLayer(plan, layer);
      NotYetDecided(plan, done, n);
      DecidableLater(plan, done, now, n);
      Undecided(plan, r, now, n);
      BlockedAgrees(plan, r, now, n);
      var failed := FailedDependencies(r.outcomes, plan.nodes[n].dependsOn);
      if failed != [] {
        CommitKeeps(plan, r, now, n, index, false);
        OrchestratedAppend(plan, rank, r.entries, Entry(n, Blocked(failed), index, false));
        EntryIdsNext(r.entries, Entry(n, Blocked(failed), index, false));
        assert done + BlockedIn(plan, layer) == now + {n};
      }
    }
  }

  lemma NoneBlocked(plan: Plan)
    requires WellFormed(plan.nodes)
    ensures BlockedIn(plan, []) == {}
  {
  }

  lemma LastInLayer(plan: Plan, layer: seq<Id>)
    requires WellFormed(plan.nodes) && Distinct(layer) && layer != []
    requires forall n :: n in layer ==> n in plan.nodes
    ensures
      var front, n := layer[..|layer| - 1], layer[|layer| - 1];
      && n !in BlockedIn(plan, front)
      && BlockedIn(plan, layer) == if Meaning(plan, n).Attempted? then BlockedIn(plan, front) else BlockedIn(plan, front) + {n}
  {
    hide WellFormed, Meaning;
    assert layer == layer[..|layer| - 1] + [layer[|layer| - 1]];
  }

  lemma OrchestratedAppend(plan: Plan, rank: map<Id, nat>, entries: seq<Entry>, e: Entry)
    requires Orchestrated(plan, rank, entries) && EntryPlaced(plan, rank, e)
    ensures Orchestrated(plan, rank, entries + [e])
  {
  }

  // ---- Groups ----

  /** The call a node makes has the arguments its group was chosen by. */
  lemma PreviewIsCall(plan: Plan, outputs: seq<Field>, done: set<Id>, n: Id)
    requires WellFormed(plan.nodes) && TemplatesStable(plan.nodes)
    requires done <= plan.nodes.Keys && n in plan.nodes
    requires OutputsMatch(plan, outputs, done) && AncestorSet(GraphOf(plan.nodes), n) <= done
    requires Meaning(plan, n).Attempted? && Meaning(plan, n).call.Some?
    ensures Meaning(plan, n).call.value == Preview(plan, outputs, n)
  {
    hide Outputs, Failing, AncestorSet, WellFormed, TemplatesStable, Listed, Resolve, Scope, OutputsMatch;
    ResolvesAlone(plan, outputs, done, n);
  }

  ghost function Ids(s: seq<Id>): set<Id> { set n | n in s }

  /** Nodes of one group that may run now and were judged by the outputs recorded when the group was formed. */
  ghost predicate Launchable(plan: Plan, group: Group, index: nat, done: set<Id>, rank: map<Id, nat>)
    requires WellFormed(plan.nodes)
  {
    && Distinct(group.ids)
    && (forall n :: n in group.ids ==> n in plan.nodes && Decidable(plan, done, n) && Meaning(plan, n).Attempted?)
    && (forall n :: n in group.ids ==> n in rank && index == rank[n] + 1)
    && (group.parallel ==> forall n :: n in group.ids ==> CallReadOnly(plan.platform, plan.nodes[n], Meaning(plan, n)))
  }

  /** Running the first i nodes of a group records exactly them, each with its meaning. */
  lemma {:induction false} GroupRecorded(plan: Plan, group: Group, index: nat, run: Run, done: set<Id>, rank: map<Id, nat>, i: nat)
    requires WellFormed(plan.nodes) && TemplatesStable(plan.nodes)
    requires Recorded(plan, run, done) && Orchestrated(plan, rank, run.entries)
    requires Launchable(plan, group, index, done, rank) && i <= |group.ids|
    ensures AreNodes(plan, group.ids)
    ensures
      var r := RunIds(plan, run, run.outputs, group.ids[..i], index, group.parallel && |group.ids| > 1);
      && Recorded(plan, r, done + Ids(group.ids[..i])) && Orchestrated(plan, rank, r.entries)
      && EntryIds(r.entries) == EntryIds(run.entries) + group.ids[..i]
  {
    hide WellFormed, TemplatesStable, Recorded, Meaning, Orchestrated, Ids, AncestorSet, Decidable, CallReadOnly, EntryIds, Ended, Commit;
    if i == 0 {
      NoIds(group.ids);
      assert done + {} == done;
    } else {
      GroupRecorded(plan, group, index, run, done, rank, i - 1);
      var front := group.ids[..i - 1];
      assert group.ids[..i][..i - 1] == front && group.ids[..i][i - 1] == group.ids[i - 1];
      var parallel := group.parallel && |group.ids| > 1;
      GroupStep(plan, group, index, run, RunIds(plan, run, run.outputs, front, index, parallel), done, rank, i - 1);
    }
  }

  lemma NoIds(ids: seq<Id>)
    ensures ids[..0] == [] && Ids(ids[..0]) == {}
  {
  }

  /** One more node of a group. */
  lemma GroupStep(plan: Plan, group: Group, index: nat, run: Run, r: Run, done: set<Id>, rank: map<Id, nat>, i: nat)
    requires WellFormed(plan.nodes) && TemplatesStable(plan.nodes) && Recorded(plan, run, done)
    requires Launchable(plan, group, index, done, rank) && i < |group.ids|
    requires Recorded(plan, r, done + Ids(group.ids[..i])) && Orchestrated(plan, rank, r.entries)
    ensures group.ids[i] in plan.nodes
    ensures
      var n := group.ids[i];
      var more := Commit(r, n, Ended(plan, run.outputs, n), index, group.parallel && |group.ids| > 1);
      && Recorded(plan, more, done + Ids(group.ids[..i + 1])) && Orchestrated(plan, rank, more.entries)
      && EntryIds(more.entries) == EntryIds(r.entries) + [n]
  {
    hide WellFormed, TemplatesStable, Recorded, Meaning, Orchestrated, Ids, AncestorSet, CallReadOnly, EntryIds, Ended, Decidable;
    var n := group.ids[i];
    var parallel := group.parallel && |group.ids| > 1;
    var now := done + Ids(group.ids[..i]);
    IdsPrefix(group.ids, i);
    NotYetDecided(plan, done, n);
    RunsMeaning(plan, run, done, n);
    EndedIs(plan, run.outputs, n);
    CommitKeeps(plan, r, now, n, index, parallel);
    OrchestratedAppend(plan, rank, r.entries, Entry(n, Meaning(plan, n), index, parallel));
    EntryIdsNext(r.entries, Entry(n, Meaning(plan, n), index, parallel));
    assert done + Ids(group.ids[..i + 1]) == now + {n};
  }

  lemma EndedIs(plan: Plan, outputs: seq<Field>, n: Id)
    requires n in plan.nodes
    ensures Ended(plan, outputs, n) == ExecuteNode(plan.platform, plan.nodes[n], plan.input, outputs)
  {
  }

  lemma IdsPrefix(s: seq<Id>, i: nat)
    requires Distinct(s) && i <= |s|
    ensures Ids(s[..0]) == {}
    ensures i < |s| ==> s[i] !in Ids(s[..i]) && Ids(s[..i + 1]) == Ids(s[..i]) + {s[i]}
  {
  }

  lemma RunsMeaning(plan: Plan, run: Run, done: set<Id>, n: Id)
    requires WellFormed(plan.nodes) && TemplatesStable(plan.nodes) && Recorded(plan, run, done)
    requires Decidable(plan, done, n) && Meaning(plan, n).Attempted?
    ensures ExecuteNode(plan.platform, plan.nodes[n], plan.input, run.outputs) == Meaning(plan, n)
  {
    hide Meaning, ExecuteNode, EntriesMatch, OutcomesMatch, OutputsMatch, SomeFailed;
    ExecutesMeaning(plan, run.outputs, done, n);
  }

  lemma ReadsInGroup(plan: Plan, grouped: seq<Field>, earlier: set<Id>, group: Group, n: Id)
    requires WellFormed(plan.nodes) && TemplatesStable(plan.nodes)
    requires earlier <= plan.nodes.Keys && OutputsMatch(plan, grouped, earlier) && GoodGroup(plan, grouped, group)
    requires n in group.ids && group.parallel && AncestorSet(GraphOf(plan.nodes), n) <= earlier
    requires Meaning(plan, n).Attempted?
    ensures CallReadOnly(plan.platform, plan.nodes[n], Meaning(plan, n))
  {
    hide Meaning, OutputsMatch, Preview;
    if Meaning(plan, n).call.Some? { PreviewIsCall(plan, grouped, earlier, n); }
  }

  lemma {:induction false} AttemptedDistinct(plan: Plan, layer: seq<Id>)
    requires WellFormed(plan.nodes) && Distinct(layer) && forall n :: n in layer ==> n in plan.nodes
    ensures Distinct(AttemptedIn(plan, layer))
  {
    hide WellFormed, Meaning;
    if layer != [] {
      var front, last := layer[..|layer| - 1], layer[|layer| - 1];
      AttemptedDistinct(plan, front);
      assert last !in front;
      LastIsNew(AttemptedIn(plan, front), last);
    }
  }

  lemma {:induction false} FlattenPrefix(groups: seq<Group>, j: nat)
    requires j <= |groups|
    ensures Flatten(groups[..j]) <= Flatten(groups)
    decreases |groups| - j
  {
    if j == |groups| {
      assert groups[..j] == groups;
    } else {
      FlattenPrefix(groups, j + 1);
      FlattenNext(groups, j);
    }
  }

  lemma FlattenNext(groups: seq<Group>, j: nat)
    requires j < |groups|
    ensures Flatten(groups[..j + 1]) == Flatten(groups[..j]) + groups[j].ids
  {
    assert groups[..j + 1][..j] == groups[..j];
  }

  lemma DistinctParts(before: seq<Id>, ids: seq<Id>, all: seq<Id>)
    requires Distinct(all) && before + ids <= all
    ensures Distinct(ids) && Ids(ids) !! Ids(before) && Ids(before + ids) == Ids(before) + Ids(ids)
    ensures forall n :: n in ids ==> n in all
  {
    forall i | 0 <= i < |ids| ensures all[|before| + i] == ids[i] { assert (before + ids)[|before| + i] == ids[i]; }
    forall i | 0 <= i < |before| ensures all[i] == before[i] { assert (before + ids)[i] == before[i]; }
  }

  /** The next group consists of nodes of the layer that are not yet recorded. */
  lemma NextGroup(groups: seq<Group>, j: nat)
    requires j < |groups| && Distinct(Flatten(groups))
    ensures Distinct(groups[j].ids)
    ensures Ids(groups[j].ids) !! Ids(Flatten(groups[..j]))
    ensures Ids(Flatten(groups[..j + 1])) == Ids(Flatten(groups[..j])) + Ids(groups[j].ids)
    ensures forall n :: n in groups[j].ids ==> n in Flatten(groups)
  {
    hide Flatten, Distinct;
    FlattenPrefix(groups, j + 1);
    FlattenNext(groups, j);
    DistinctParts(Flatten(groups[..j]), groups[j].ids, Flatten(groups));
  }

  lemma GroupLaunchable(plan: Plan, groups: seq<Group>, j: nat, index: nat, base: set<Id>, rank: map<Id, nat>,
                        layer: seq<Id>, grouped: seq<Field>)
    requires WellFormed(plan.nodes) && TemplatesStable(plan.nodes) && base <= plan.nodes.Keys
    requires OutputsMatch(plan, grouped, base) && GoodGroups(plan, grouped, groups) && j < |groups|
    requires forall n :: n in layer ==> n in plan.nodes && n in rank && index == rank[n] + 1
    requires Flatten(groups) == AttemptedIn(plan, layer) && Distinct(layer)
    requires forall n :: n in layer && Meaning(plan, n).Attempted? ==> Decidable(plan, base, n)
    ensures Launchable(plan, groups[j], index, base + Ids(Flatten(groups[..j])), rank)
  {
    hide Flatten, Meaning, OutputsMatch, WellFormed, TemplatesStable, CallReadOnly, AncestorSet,
         GoodGroups, GoodGroup, Distinct, AttemptedIn;
    AttemptedDistinct(plan, layer);
    NextGroup(groups, j);
    GroupIsGood(plan, grouped, groups, j);
    var now := base + Ids(Flatten(groups[..j]));
    forall n | n in groups[j].ids ensures n in plan.nodes && Decidable(plan, now, n) && Meaning(plan, n).Attempted? {
      assert n in AttemptedIn(plan, layer);
      assert n in Ids(groups[j].ids);
    }
    if groups[j].parallel {
      forall n | n in groups[j].ids ensures CallReadOnly(plan.platform, plan.nodes[n], Meaning(plan, n)) {
        assert n in AttemptedIn(plan, layer);
        ReadsInGroup(plan, grouped, base, groups[j], n);
      }
    }
  }

  lemma GroupIsGood(plan: Plan, outputs: seq<Field>, groups: seq<Group>, j: nat)
    requires GoodGroups(plan, outputs, groups) && j < |groups|
    ensures GoodGroup(plan, outputs, groups[j])
  {
  }

  lemma RecordedOutputs(plan: Plan, run: Run, done: set<Id>)
    requires WellFormed(plan.nodes) && Recorded(plan, run, done)
    ensures done <= plan.nodes.Keys && OutputsMatch(plan, run.outputs, done)
  {
  }

  lemma LayerDone(plan: Plan, done: set<Id>, layer: seq<Id>)
    requires WellFormed(plan.nodes) && forall n :: n in layer ==> n in plan.nodes
    ensures done + BlockedIn(plan, layer) + Ids(AttemptedIn(plan, layer)) == done + Ids(layer)
  {
  }

  /** The first j groups of a layer record exactly their nodes. */
  lemma {:induction false} GroupsRecorded(plan: Plan, layer: seq<Id>, index: nat, skipped: Run, base: set<Id>, rank: map<Id, nat>,
                                          groups: seq<Group>, j: nat)
    requires WellFormed(plan.nodes) && TemplatesStable(plan.nodes)
    requires Recorded(plan, skipped, base) && Orchestrated(plan, rank, skipped.entries)
    requires Distinct(layer) && AllNodes(plan, groups) && j <= |groups|
    requires forall n :: n in layer ==> n in plan.nodes && n in rank && index == rank[n] + 1
    requires forall n :: n in layer && Meaning(plan, n).Attempted? ==> Decidable(plan, base, n)
    requires Flatten(groups) == AttemptedIn(plan, layer) && GoodGroups(plan, skipped.outputs, groups)
    ensures
      var r := GroupsRun(plan, skipped, groups[..j], index);
      && Recorded(plan, r, base + Ids(Flatten(groups[..j]))) && Orchestrated(plan, rank, r.entries)
      && EntryIds(r.entries) == EntryIds(skipped.entries) + Flatten(groups[..j])
  {
    hide WellFormed, TemplatesStable, Recorded, Meaning, Orchestrated, Ids, AncestorSet, Flatten, Launchable, GoodGroups,
         OutputsMatch, AttemptedIn, EntryIds, Decidable, RunIds;
    if j == 0 {
      NoneYet(groups);
      assert base + {} == base;
      assert groups[..0] == [];
    } else {
      GroupsRecorded(plan, layer, index, skipped, base, rank, groups, j - 1);
      assert groups[..j][..j - 1] == groups[..j - 1] && groups[..j][j - 1] == groups[j - 1];
      var r := GroupsRun(plan, skipped, groups[..j - 1], index);
      var now := base + Ids(Flatten(groups[..j - 1]));
      var group := groups[j - 1];
      RecordedOutputs(plan, skipped, base);
      GroupLaunchable(plan, groups, j - 1, index, base, rank, layer, skipped.outputs);
      GroupRecorded(plan, group, index, r, now, rank, |group.ids|);
      assert group.ids[..|group.ids|] == group.ids;
      AttemptedDistinct(plan, layer);
      NextGroup(groups, j - 1);
      FlattenNext(groups, j - 1);
      assert base + Ids(Flatten(groups[..j])) == now + Ids(group.ids);
    }
  }

  /** After a layer exactly its nodes are added, in the order the meaning decides. */
  lemma LayerRecorded(plan: Plan, layer: seq<Id>, index: nat, run: Run, done: set<Id>, rank: map<Id, nat>)
    requires WellFormed(plan.nodes) && TemplatesStable(plan.nodes)
    requires Recorded(plan, run, done) && Orchestrated(plan, rank, run.entries)
    requires Distinct(layer)
    requires forall n :: n in layer ==> n in plan.nodes && Decidable(plan, done, n)
    requires forall n :: n in layer ==> n in rank && index == rank[n] + 1
    ensures
      var r := LayerRun(plan, run, layer, index);
      && Recorded(plan, r, done + Ids(layer)) && Orchestrated(plan, rank, r.entries)
      && EntryIds(r.entries) == EntryIds(run.entries) + RecordedOrder(plan, layer)
  {
    hide WellFormed, TemplatesStable, Recorded, Meaning, Orchestrated, Ids, AncestorSet, Flatten, GoodGroups, AttemptedIn,
         BlockedOrder, EntryIds, SkipRun, RunnableOf, Grouped, GroupsRun;
    SkipRecorded(plan, layer, index, run, done, rank);
    var skipped := SkipRun(plan, run, layer, index);
    var base := done + BlockedIn(plan, layer);
    var groups := Grouped(plan, skipped.outputs, RunnableOf(plan, run, layer, index));
    GroupedIsGood(plan, skipped.outputs, RunnableOf(plan, run, layer, index));
    assert forall n :: n in layer && Meaning(plan, n).Attempted? ==> Decidable(plan, base, n);
    GroupsRecorded(plan, layer, index, skipped, base, rank, groups, |groups|);
    assert groups[..|groups|] == groups;
    LayerDone(plan, done, layer);
  }

  lemma NoneYet(groups: seq<Group>)
    ensures Ids(Flatten(groups[..0])) == {} && Flatten(groups[..0]) == []
  {
  }

  // ---- Whole runs ----

  ghost function Below(rank: map<Id, nat>, k: nat): set<Id> { set n | n in rank && rank[n] < k }

  lemma LayerDecidable(plan: Plan, layers: seq<seq<Id>>, rank: map<Id, nat>, k: nat)
    requires WellFormed(plan.nodes) && Layered(GraphOf(plan.nodes), layers, rank) && k < |layers|
    ensures Distinct(layers[k])
    ensures forall n :: n in layers[k] ==> n in plan.nodes && Decidable(plan, Below(rank, k), n)
    ensures forall n :: n in layers[k] ==> n in rank && rank[n] == k
    ensures Below(rank, k + 1) == Below(rank, k) + Ids(layers[k])
  {
    hide Reaches, Tight, SortedBy, Acyclic, Closed;
    var g := GraphOf(plan.nodes);
    GraphKeys(plan.nodes);
    forall n | n in layers[k] ensures n in plan.nodes && Decidable(plan, Below(rank, k), n) {
      forall a | a in AncestorSet(g, n) ensures a in Below(rank, k) { AncestorRank(g, rank, n, a); }
    }
  }

  lemma AncestorRank(g: Graph, rank: map<Id, nat>, n: Id, a: Id)
    requires Downward(g, rank) && rank.Keys == g.Keys && n in g && a in AncestorSet(g, n)
    ensures rank[a] < rank[n]
  {
    var p :| ChainBetween(g, p, n, a);
    ChainFalls(g, rank, p);
  }

  /**
   * The run of the first k layers records exactly their nodes, each once and with its recursive meaning, in an order fixed
   * by the definition, the input and the platform, and calls in parallel groups only read.
   */
  lemma {:induction false} RunRecorded(plan: Plan, layers: seq<seq<Id>>, rank: map<Id, nat>, k: nat)
    requires WellFormed(plan.nodes) && TemplatesStable(plan.nodes)
    requires Layered(GraphOf(plan.nodes), layers, rank) && k <= |layers|
    ensures forall j :: 0 <= j < |layers| ==> AreNodes(plan, layers[j])
    ensures
      var run := RunOf(plan, layers[..k]);
      && Recorded(plan, run, Below(rank, k)) && Orchestrated(plan, rank, run.entries)
      && EntryIds(run.entries) == Concat(Schedule(plan, layers)[..k])
  {
    hide WellFormed, TemplatesStable, EntriesMatch, OutputsMatch, OutcomesMatch, Meaning, Orchestrated,
         Layered, SomeFailed, Decidable, RecordedOrder, EntryIds, LayerRun;
    LayersAreNodes(plan, layers, rank);
    var schedule := Schedule(plan, layers);
    if k == 0 {
      NothingRecorded(plan, NOTHING, rank);
      assert layers[..0] == [] && schedule[..0] == [];
    } else {
      RunRecorded(plan, layers, rank, k - 1);
      LayerDecidable(plan, layers, rank, k - 1);
      ConcatNext(schedule, k - 1);
      assert layers[..k][..k - 1] == layers[..k - 1] && layers[..k][k - 1] == layers[k - 1];
      LayerRecorded(plan, layers[k - 1], k, RunOf(plan, layers[..k - 1]), Below(rank, k - 1), rank);
    }
  }

  /**
   * What the executor returns, whichever layer it is cancelled at: a run that covers every node exactly if it was not
   * cancelled, and then failed exactly if an attempted node failed.
   */
  lemma ResultMeans(plan: Plan, layers: seq<seq<Id>>, rank: map<Id, nat>, reached: nat, status: string)
    requires WellFormed(plan.nodes) && TemplatesStable(plan.nodes)
    requires Layered(GraphOf(plan.nodes), layers, rank) && reached <= |layers|
    requires forall k :: 0 <= k < |layers| ==> AreNodes(plan, layers[k])
    requires status ==
      if reached < |layers| then "cancelled" else if RunOf(plan, layers[..reached]).failed then "failed" else "succeeded"
    ensures Below(rank, reached) == plan.nodes.Keys <==> reached == |layers|
    ensures status ==
      if reached < |layers| then "cancelled" else if SomeFailed(plan, plan.nodes.Keys) then "failed" else "succeeded"
  {
    hide WellFormed, TemplatesStable, EntriesMatch, OutputsMatch, OutcomesMatch, Meaning, Orchestrated, SomeFailed, Decidable,
         RecordedOrder, EntryIds, LayerRun, RunOf, Tight, Downward, SortedBy;
    RunRecorded(plan, layers, rank, reached);
    AllBelow(plan, layers, rank);
    if reached < |layers| {
      var n := layers[reached][0];
      assert n in layers[reached] && n in rank && n !in Below(rank, reached);
      GraphKeys(plan.nodes);
    }
  }

  lemma NothingRecorded(plan: Plan, run: Run, rank: map<Id, nat>)
    requires WellFormed(plan.nodes) && run == NOTHING
    ensures Recorded(plan, run, Below(rank, 0)) && Orchestrated(plan, rank, run.entries) && EntryIds(run.entries) == []
  {
  }

  lemma LayersAreNodes(plan: Plan, layers: seq<seq<Id>>, rank: map<Id, nat>)
    requires Layered(GraphOf(plan.nodes), layers, rank)
    ensures forall k, n :: 0 <= k < |layers| && n in layers[k] ==> n in plan.nodes
  {
    hide Tight, Downward, SortedBy;
    GraphKeys(plan.nodes);
  }

  lemma AllBelow(plan: Plan, layers: seq<seq<Id>>, rank: map<Id, nat>)
    requires Layered(GraphOf(plan.nodes), layers, rank)
    ensures Below(rank, |layers|) == plan.nodes.Keys
  {
  }

  // ---- The schedule covers the layers ----

  lemma ScheduleLength(plan: Plan, layers: seq<seq<Id>>)
    requires WellFormed(plan.nodes) && forall k, n :: 0 <= k < |layers| && n in layers[k] ==> n in plan.nodes
    ensures |Schedule(plan, layers)| == |layers|
  {
  }

  lemma {:induction false} BlockedMembers(plan: Plan, layer: seq<Id>)
    requires WellFormed(plan.nodes) && forall n :: n in layer ==> n in plan.nodes
    ensures forall n :: n in BlockedOrder(plan, layer) <==> n in layer && !Meaning(plan, n).Attempted?
  {
    hide WellFormed, Meaning;
    if layer != [] {
      BlockedMembers(plan, layer[..|layer| - 1]);
      assert layer == layer[..|layer| - 1] + [layer[|layer| - 1]];
    }
  }

  lemma {:induction false} BlockedDistinct(plan: Plan, layer: seq<Id>)
    requires WellFormed(plan.nodes) && Distinct(layer) && forall n :: n in layer ==> n in plan.nodes
    ensures Distinct(BlockedOrder(plan, layer))
  {
    hide WellFormed, Meaning;
    if layer != [] {
      var front, last := layer[..|layer| - 1], layer[|layer| - 1];
      BlockedDistinct(plan, front);
      BlockedMembers(plan, front);
      assert last !in BlockedOrder(plan, front);
      LastIsNew(BlockedOrder(plan, front), last);
    }
  }

  lemma LastIsNew(s: seq<Id>, n: Id)
    requires Distinct(s) && n !in s
    ensures Distinct(s + [n])
  {
    forall i | 0 <= i < |s| ensures s[i] != n { assert s[i] in s; }
  }

  lemma OrderMembers(plan: Plan, layer: seq<Id>)
    requires WellFormed(plan.nodes) && forall n :: n in layer ==> n in plan.nodes
    ensures forall n :: n in RecordedOrder(plan, layer) <==> n in layer
  {
    hide WellFormed, Meaning, BlockedOrder, AttemptedIn;
    BlockedMembers(plan, layer);
  }

  lemma DistinctAppend(a: seq<Id>, b: seq<Id>)
    requires Distinct(a) && Distinct(b) && forall n :: n in a ==> n !in b
    ensures Distinct(a + b)
  {
    forall i, j | 0 <= i < j < |a + b| ensures (a + b)[i] != (a + b)[j] {
      if i < |a| <= j { assert a[i] in a && b[j - |a|] in b; }
    }
  }

  lemma OrderDistinct(plan: Plan, layer: seq<Id>)
    requires WellFormed(plan.nodes) && Distinct(layer) && forall n :: n in layer ==> n in plan.nodes
    ensures Distinct(RecordedOrder(plan, layer))
  {
    hide WellFormed, Meaning, Distinct, BlockedOrder, AttemptedIn;
    BlockedMembers(plan, layer);
    BlockedDistinct(plan, layer);
    AttemptedDistinct(plan, layer);
    DistinctAppend(BlockedOrder(plan, layer), AttemptedIn(plan, layer));
  }

  /** The first k layers of the schedule hold exactly the nodes below layer k, each once. */
  lemma {:induction false} ScheduleMembers(plan: Plan, layers: seq<seq<Id>>, rank: map<Id, nat>, k: nat)
    requires WellFormed(plan.nodes) && Layered(GraphOf(plan.nodes), layers, rank) && k <= |layers|
    requires forall k, n :: 0 <= k < |layers| && n in layers[k] ==> n in plan.nodes
    ensures k <= |Schedule(plan, layers)|
    ensures forall n :: n in Concat(Schedule(plan, layers)[..k]) <==> n in Below(rank, k)
    ensures Distinct(Concat(Schedule(plan, layers)[..k]))
  {
    hide WellFormed, Layered, RecordedOrder;
    var schedule := Schedule(plan, layers);
    if k == 0 {
      assert schedule[..0] == [];
    } else {
      ScheduleMembers(plan, layers, rank, k - 1);
      ConcatNext(schedule, k - 1);
      LayerDecidable(plan, layers, rank, k - 1);
      OrderMembers(plan, layers[k - 1]);
      OrderDistinct(plan, layers[k - 1]);
      DistinctAppend(Concat(schedule[..k - 1]), RecordedOrder(plan, layers[k - 1]));
    }
  }
}
