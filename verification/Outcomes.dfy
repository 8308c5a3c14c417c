/** How the nodes of a run end, in terms of what the platform answers, for any definition. */
module Outcomes {
  import opened Common
  import opened Graph
  import opened Templates
  import opened Workflow
  import opened Engine

  // ---- One node ----

  /** The condition resolves to nothing: null, false, zero, or an empty text, list or object. */
  ghost predicate Declines(p: Platform, node: Node, scope: Value) {
    Resolve(node.when, scope, p.show) in {Ok(Null), Ok(Bool(false)), Ok(Number(0.0)), Ok(Str("")), Ok(List([])), Ok(Object([]))}
  }

  /** The tool is called: with the canonical form c of the resolved arguments v. */
  ghost predicate Calls(p: Platform, node: Node, scope: Value, v: Value, c: Value) {
    && Resolve(node.when, scope, p.show).Ok? && !Declines(p, node, scope)
    && Resolve(node.arguments, scope, p.show) == Ok(v)
    && p.canonicalize(node.tool, v) == Ok(c) && p.encodedSize(c) <= 1_048_576
  }

  /** The tool is called and answers with success and this output. */
  ghost predicate Delivers(p: Platform, node: Node, scope: Value, output: Value) {
    exists v, c :: Calls(p, node, scope, v, c) && AnswersWith(p.invoke(node.id, node.tool, c), output)
  }

  ghost predicate AnswersWith(answer: ToolResult, output: Value) {
    answer.Returned? && (answer.status == "succeeded" || answer.status == "dry_run") && answer.output == output
  }

  /** The first 20 errors, each cut to 500 characters. */
  ghost predicate ErrorsKept(errors: seq<string>, kept: seq<string>) {
    && (|errors| <= 20 ==> |kept| == |errors|) && (|errors| > 20 ==> |kept| == 20)
    && forall i :: 0 <= i < |kept| && i < |errors| ==>
         kept[i] <= errors[i] && (|errors[i]| <= 500 ==> kept[i] == errors[i]) && (|errors[i]| > 500 ==> |kept[i]| == 500)
  }

  /** A called node ends as its tool answers: it succeeds, and hands on the output, exactly if the answer is a success. */
  lemma CallDecides(p: Platform, node: Node, input: Value, outputs: seq<Field>, v: Value, c: Value)
    requires Calls(p, node, Scope(input, outputs), v, c)
    ensures
      var o, answer := ExecuteNode(p, node, input, outputs), p.invoke(node.id, node.tool, c);
      && o.call == Some(v)
      && (o.success <==> answer.Returned? && (answer.status == "succeeded" || answer.status == "dry_run"))
      && (Succeeded(o) <==> o.success)
      && (answer.Returned? ==> o.status == answer.status && ErrorsKept(answer.errors, o.errors))
      && (answer.Raised? ==> o.status == "failed" && ErrorsKept([answer.error], o.errors))
      && OutputOf(o) == if o.success then answer.output else Object([])
  {
    hide Resolve, Scope;
  }

  /** Without a call a node either declined, which is no failure, or failed; either way it hands on nothing. */
  lemma UncalledDecides(p: Platform, node: Node, input: Value, outputs: seq<Field>)
    requires !exists v, c :: Calls(p, node, Scope(input, outputs), v, c)
    ensures
      var o := ExecuteNode(p, node, input, outputs);
      && o.call == None && !Succeeded(o) && OutputOf(o) == Object([])
      && (o.success <==> Declines(p, node, Scope(input, outputs)))
      && o.status == if o.success then "skipped" else "failed"
  {
    hide Resolve, Scope;
    var scope := Scope(input, outputs);
    match Resolve(node.arguments, scope, p.show) {
      case Err(_) =>
      case Ok(v) =>
        match p.canonicalize(node.tool, v) {
          case Err(_) =>
          case Ok(c) => assert !Calls(p, node, scope, v, c);
        }
    }
  }

  /** What the outcome of an attempted node says, scope by scope. */
  ghost predicate Tells(p: Platform, node: Node, scope: Value, o: Outcome) {
    && o.Attempted?
    && (o.success <==> Declines(p, node, scope) || exists output :: Delivers(p, node, scope, output))
    && (Succeeded(o) <==> exists output :: Delivers(p, node, scope, output))
    && (forall output :: Delivers(p, node, scope, output) ==> OutputOf(o) == output)
    && (!Succeeded(o) ==> OutputOf(o) == Object([]))
    && (forall v :: o.call == Some(v) <==> exists c :: Calls(p, node, scope, v, c))
  }

  lemma ExecutedTells(p: Platform, node: Node, input: Value, outputs: seq<Field>)
    ensures Tells(p, node, Scope(input, outputs), ExecuteNode(p, node, input, outputs))
  {
    hide Resolve, Scope, ExecuteNode, Succeeded, OutputOf;
    var scope, o := Scope(input, outputs), ExecuteNode(p, node, input, outputs);
    if v, c :| Calls(p, node, scope, v, c) {
      CallDecides(p, node, input, outputs, v, c);
      var answer := p.invoke(node.id, node.tool, c);
      if o.success { assert AnswersWith(answer, answer.output) && Delivers(p, node, scope, answer.output); }
    } else {
      UncalledDecides(p, node, input, outputs);
    }
  }

  // ---- Runs ----

  /** Some entry before the i-th records that the node succeeded. */
  ghost predicate DoneBefore(entries: seq<Entry>, i: nat, d: Id)
    requires i <= |entries|
  {
    exists k :: 0 <= k < i && entries[k].id == d && Succeeded(entries[k].outcome)
  }

  /**
   * An entry is blocked exactly if some dependency has not succeeded before, and lists those; otherwise the node was
   * executed against the outputs recorded up to some earlier moment.
   */
  ghost predicate EntryExplained(plan: Plan, run: Run, i: nat)
    requires i < |run.entries| && |run.outputs| == |run.entries|
  {
    var e := run.entries[i];
    && e.id in plan.nodes
    && run.outputs[i] == Field(e.id, OutputOf(e.outcome))
    && (e.outcome.Blocked? <==> exists d :: d in plan.nodes[e.id].dependsOn && !DoneBefore(run.entries, i, d))
    && (e.outcome.Blocked? ==>
          forall d :: d in e.outcome.failedDependencies <==> d in plan.nodes[e.id].dependsOn && !DoneBefore(run.entries, i, d))
    && (e.outcome.Attempted? ==> exists j: nat :: j <= i && AgainstFirst(plan, run, i, j))
  }

  ghost predicate AgainstFirst(plan: Plan, run: Run, i: nat, j: nat)
    requires i < |run.entries| && |run.outputs| == |run.entries| && run.entries[i].id in plan.nodes && j <= i
  {
    run.entries[i].outcome == ExecuteNode(plan.platform, plan.nodes[run.entries[i].id], plan.input, run.outputs[..j])
  }

  ghost predicate Explained(plan: Plan, run: Run) {
    && |run.outputs| == |run.entries|
    && (forall i :: 0 <= i < |run.entries| ==> EntryExplained(plan, run, i))
    && (forall i, j :: 0 <= i < j < |run.entries| ==> run.entries[i].id != run.entries[j].id)
    && (run.failed <==> exists i :: 0 <= i < |run.entries| && run.entries[i].outcome.Attempted? && !run.entries[i].outcome.success)
  }

  /** The dependency outcomes are those of the entries. */
  ghost predicate Indexed(run: Run) {
    forall n :: (n in run.outcomes <==> exists i :: 0 <= i < |run.entries| && run.entries[i].id == n)
      && (n in run.outcomes && run.outcomes[n] <==> DoneBefore(run.entries, |run.entries|, n))
  }

  /** A node that may run: unrecorded, and all its dependencies recorded as succeeded. */
  ghost predicate Ready(plan: Plan, run: Run, n: Id) {
    n in plan.nodes && n !in run.outcomes && forall d :: d in plan.nodes[n].dependsOn ==> d in run.outcomes && run.outcomes[d]
  }

  lemma {:induction false} FailedAre(outcomes: map<Id, bool>, deps: seq<Id>)
    ensures forall d :: d in FailedDependencies(outcomes, deps) <==> d in deps && !(d in outcomes && outcomes[d])
  {
    if deps != [] {
      FailedAre(outcomes, deps[1..]);
      assert deps == [deps[0]] + deps[1..];
    }
  }

  /** Entries recorded earlier stay explained. */
  lemma EntryStays(plan: Plan, run: Run, more: Run, i: nat)
    requires |run.outputs| == |run.entries| && |more.outputs| == |more.entries|
    requires run.entries <= more.entries && run.outputs <= more.outputs
    requires i < |run.entries| && EntryExplained(plan, run, i)
    ensures EntryExplained(plan, more, i)
  {
    hide ExecuteNode, Succeeded, OutputOf;
    forall d ensures DoneBefore(run.entries, i, d) <==> DoneBefore(more.entries, i, d) {
      forall k | 0 <= k < i ensures run.entries[k] == more.entries[k] {}
    }
    if run.entries[i].outcome.Attempted? {
      var j: nat :| j <= i && AgainstFirst(plan, run, i, j);
      assert run.outputs[..j] == more.outputs[..j];
      assert AgainstFirst(plan, more, i, j);
    }
  }

  lemma CommitIndexed(run: Run, n: Id, o: Outcome, layer: nat, parallel: bool)
    requires Indexed(run) && n !in run.outcomes
    ensures Indexed(Commit(run, n, o, layer, parallel))
  {
    hide Succeeded;
    var more := Commit(run, n, o, layer, parallel);
    forall m ensures DoneBefore(more.entries, |more.entries|, m) <==> DoneBefore(run.entries, |run.entries|, m) || (m == n && Succeeded(o)) {
      forall k | 0 <= k < |run.entries| ensures more.entries[k] == run.entries[k] {}
      if m == n && Succeeded(o) { assert more.entries[|run.entries|].id == m; }
    }
    forall m ensures (exists i :: 0 <= i < |more.entries| && more.entries[i].id == m) <==> m in run.outcomes || m == n {
      if m in run.outcomes { var i :| 0 <= i < |run.entries| && run.entries[i].id == m; assert more.entries[i].id == m; }
      if m == n { assert more.entries[|run.entries|].id == m; }
    }
  }

  lemma CommitExplained(plan: Plan, run: Run, n: Id, o: Outcome, layer: nat, parallel: bool, j: nat)
    requires Explained(plan, run) && Indexed(run) && n in plan.nodes && n !in run.outcomes
    requires o.Blocked? ==>
      o.failedDependencies == FailedDependencies(run.outcomes, plan.nodes[n].dependsOn) && o.failedDependencies != []
    requires o.Attempted? ==>
      && Ready(plan, run, n) && j <= |run.outputs|
      && o == ExecuteNode(plan.platform, plan.nodes[n], plan.input, run.outputs[..j])
    ensures Explained(plan, Commit(run, n, o, layer, parallel)) && Indexed(Commit(run, n, o, layer, parallel))
  {
    hide ExecuteNode, Succeeded, OutputOf, EntryExplained, FailedDependencies;
    var more := Commit(run, n, o, layer, parallel);
    CommitIndexed(run, n, o, layer, parallel);
    forall i | 0 <= i < |more.entries| ensures EntryExplained(plan, more, i) {
      if i < |run.entries| { EntryStays(plan, run, more, i); } else { LastExplained(plan, run, n, o, layer, parallel, j); }
    }
    assert more.entries[|run.entries|].outcome == o;
    if run.failed {
      var i :| 0 <= i < |run.entries| && run.entries[i].outcome.Attempted? && !run.entries[i].outcome.success;
      assert more.entries[i] == run.entries[i];
    }
    if i :| 0 <= i < |more.entries| && more.entries[i].outcome.Attempted? && !more.entries[i].outcome.success {
      assert i < |run.entries| ==> more.entries[i] == run.entries[i];
    }
  }

  lemma LastExplained(plan: Plan, run: Run, n: Id, o: Outcome, layer: nat, parallel: bool, j: nat)
    requires |run.outputs| == |run.entries| && Indexed(run) && n in plan.nodes
    requires o.Blocked? ==>
      o.failedDependencies == FailedDependencies(run.outcomes, plan.nodes[n].dependsOn) && o.failedDependencies != []
    requires o.Attempted? ==>
      && Ready(plan, run, n) && j <= |run.outputs|
      && o == ExecuteNode(plan.platform, plan.nodes[n], plan.input, run.outputs[..j])
    ensures EntryExplained(plan, Commit(run, n, o, layer, parallel), |run.entries|)
  {
    hide ExecuteNode, Succeeded, OutputOf, FailedDependencies;
    var more, i := Commit(run, n, o, layer, parallel), |run.entries|;
    FailedAre(run.outcomes, plan.nodes[n].dependsOn);
    forall d ensures DoneBefore(more.entries, i, d) <==> d in run.outcomes && run.outcomes[d] {
      assert DoneBefore(run.entries, i, d) <==> d in run.outcomes && run.outcomes[d];
      forall k | 0 <= k < i ensures more.entries[k] == run.entries[k] {}
    }
    if o.Attempted? {
      assert more.outputs[..j] == run.outputs[..j];
      assert AgainstFirst(plan, more, i, j);
    } else {
      assert o.failedDependencies[0] in FailedDependencies(run.outcomes, plan.nodes[n].dependsOn);
    }
  }

  /** Whoever may run still may after another node was recorded. */
  lemma ReadyStays(plan: Plan, run: Run, m: Id, n: Id, o: Outcome, layer: nat, parallel: bool)
    requires Ready(plan, run, m) && m != n && n !in run.outcomes
    ensures Ready(plan, Commit(run, n, o, layer, parallel), m)
  {
    hide Succeeded;
  }

  lemma {:induction false} SkipExplained(plan: Plan, run: Run, layer: seq<Id>, index: nat)
    requires Explained(plan, run) && Indexed(run) && AreNodes(plan, layer) && Distinct(layer)
    ensures Explained(plan, SkipRun(plan, run, layer, index)) && Indexed(SkipRun(plan, run, layer, index))
    ensures Distinct(RunnableOf(plan, run, layer, index))
    ensures forall n :: n in RunnableOf(plan, run, layer, index) ==> Ready(plan, SkipRun(plan, run, layer, index), n)
  {
    hide Explained, Indexed, Ready, Commit;
    if layer != [] {
      var front, n := layer[..|layer| - 1], layer[|layer| - 1];
      SkipExplained(plan, run, front, index);
      var r := SkipRun(plan, run, front, index);
      var failed := FailedDependencies(r.outcomes, plan.nodes[n].dependsOn);
      assert n !in front;
      FailedAre(r.outcomes, plan.nodes[n].dependsOn);
      if n in r.outcomes {
      } else if failed != [] {
        CommitExplained(plan, r, n, Blocked(failed), index, false, 0);
        forall m | m in RunnableOf(plan, run, front, index) ensures Ready(plan, Commit(r, n, Blocked(failed), index, false), m) {
          ReadyStays(plan, r, m, n, Blocked(failed), index, false);
        }
      } else {
        NowReady(plan, r, n);
        DistinctSnoc(RunnableOf(plan, run, front, index), n);
      }
    }
  }

  lemma NowReady(plan: Plan, run: Run, n: Id)
    requires n in plan.nodes && n !in run.outcomes && FailedDependencies(run.outcomes, plan.nodes[n].dependsOn) == []
    ensures Ready(plan, run, n)
  {
    FailedAre(run.outcomes, plan.nodes[n].dependsOn);
  }

  lemma DistinctSnoc(s: seq<Id>, n: Id)
    requires Distinct(s) && n !in s
    ensures Distinct(s + [n])
  {
    forall i | 0 <= i < |s| ensures s[i] != n { assert s[i] in s; }
  }

  lemma {:induction false} IdsExplained(plan: Plan, run: Run, ids: seq<Id>, index: nat, parallel: bool)
    requires Explained(plan, run) && Indexed(run) && AreNodes(plan, ids) && Distinct(ids)
    requires forall n :: n in ids ==> Ready(plan, run, n)
    ensures
      var r := RunIds(plan, run, run.outputs, ids, index, parallel);
      && Explained(plan, r) && Indexed(r) && run.outputs <= r.outputs
      && forall m :: m !in ids && Ready(plan, run, m) ==> Ready(plan, r, m)
  {
    hide Explained, Indexed, Ready, Ended;
    if ids != [] {
      var front, n := ids[..|ids| - 1], ids[|ids| - 1];
      IdsExplained(plan, run, front, index, parallel);
      assert n !in front && ids == front + [n];
      var r := RunIds(plan, run, run.outputs, front, index, parallel);
      IdCommitted(plan, run, r, n, index, parallel);
      forall m | m !in ids && Ready(plan, run, m)
        ensures Ready(plan, Commit(r, n, Ended(plan, run.outputs, n), index, parallel), m)
      {
        UnrecordedYet(plan, r, n);
        ReadyStays(plan, r, m, n, Ended(plan, run.outputs, n), index, parallel);
      }
    }
  }

  lemma UnrecordedYet(plan: Plan, run: Run, n: Id)
    requires Ready(plan, run, n)
    ensures n in plan.nodes && n !in run.outcomes
  {
  }

  lemma IdCommitted(plan: Plan, run: Run, r: Run, n: Id, index: nat, parallel: bool)
    requires Explained(plan, r) && Indexed(r) && Ready(plan, r, n) && run.outputs <= r.outputs && n in plan.nodes
    ensures
      var more := Commit(r, n, Ended(plan, run.outputs, n), index, parallel);
      Explained(plan, more) && Indexed(more) && run.outputs <= more.outputs
  {
    hide Explained, Indexed, ExecuteNode;
    assert r.outputs[..|run.outputs|] == run.outputs;
    CommitExplained(plan, r, n, Ended(plan, run.outputs, n), index, parallel, |run.outputs|);
  }

  lemma {:induction false} GroupsExplained(plan: Plan, run: Run, groups: seq<Group>, index: nat)
    requires Explained(plan, run) && Indexed(run) && AllNodes(plan, groups) && Distinct(Flatten(groups))
    requires forall n :: n in Flatten(groups) ==> Ready(plan, run, n)
    ensures
      var r := GroupsRun(plan, run, groups, index);
      && Explained(plan, r) && Indexed(r)
      && forall m :: m !in Flatten(groups) && Ready(plan, run, m) ==> Ready(plan, r, m)
  {
    hide Explained, Indexed, Ready, RunIds;
    if groups != [] {
      var front, last := groups[..|groups| - 1], groups[|groups| - 1];
      assert Flatten(groups) == Flatten(front) + last.ids;
      DistinctSplit(Flatten(front), last.ids);
      GroupsExplained(plan, run, front, index);
      IdsExplained(plan, GroupsRun(plan, run, front, index), last.ids, index, last.parallel && |last.ids| > 1);
    }
  }

  lemma DistinctSplit(a: seq<Id>, b: seq<Id>)
    requires Distinct(a + b)
    ensures Distinct(a) && Distinct(b) && forall n :: n in b ==> n !in a
  {
    var all := a + b;
    forall i | 0 <= i < |a| ensures all[i] == a[i] {}
    forall i | 0 <= i < |b| ensures all[|a| + i] == b[i] {}
  }

  lemma LayerExplained(plan: Plan, run: Run, layer: seq<Id>, index: nat)
    requires Explained(plan, run) && Indexed(run) && AreNodes(plan, layer) && Distinct(layer)
    ensures Explained(plan, LayerRun(plan, run, layer, index)) && Indexed(LayerRun(plan, run, layer, index))
  {
    hide Explained, Indexed, Ready, SkipRun, RunnableOf, Grouped, GroupsRun, GoodGroups;
    SkipExplained(plan, run, layer, index);
    var r, runnable := SkipRun(plan, run, layer, index), RunnableOf(plan, run, layer, index);
    GroupedIsGood(plan, r.outputs, runnable);
    GroupsExplained(plan, r, Grouped(plan, r.outputs, runnable), index);
  }

  lemma {:induction false} RunExplained(plan: Plan, layers: seq<seq<Id>>)
    requires forall k :: 0 <= k < |layers| ==> AreNodes(plan, layers[k]) && Distinct(layers[k])
    ensures Explained(plan, RunOf(plan, layers)) && Indexed(RunOf(plan, layers))
  {
    hide LayerRun;
    if layers == [] {
    } else {
      RunExplained(plan, layers[..|layers| - 1]);
      LayerExplained(plan, RunOf(plan, layers[..|layers| - 1]), layers[|layers| - 1], |layers|);
    }
  }

  /**
   * Every entry of every run: blocked exactly if some dependency did not succeed before it, otherwise ended as the
   * platform answers against the outputs recorded up to some earlier moment. The run failed exactly if some entry was
   * attempted, did not decline and did not succeed.
   */
  lemma RunTells(plan: Plan, layers: seq<seq<Id>>, i: nat)
    requires forall k :: 0 <= k < |layers| ==> AreNodes(plan, layers[k]) && Distinct(layers[k])
    requires i < |RunOf(plan, layers).entries|
    ensures
      var run := RunOf(plan, layers);
      var e := run.entries[i];
      && |run.outputs| == |run.entries| && e.id in plan.nodes && run.outputs[i].key == e.id
      && (e.outcome.Blocked? <==> exists d :: d in plan.nodes[e.id].dependsOn && !DoneBefore(run.entries, i, d))
      && (e.outcome.Blocked? ==> run.outputs[i].value == Object([]))
      && (e.outcome.Attempted? ==> run.outputs[i].value == OutputOf(e.outcome))
      && (e.outcome.Attempted? ==>
            exists j: nat :: j <= i && Tells(plan.platform, plan.nodes[e.id], Scope(plan.input, run.outputs[..j]), e.outcome))
  {
    hide RunOf, Tells, ExecuteNode, Scope;
    RunExplained(plan, layers);
    var run := RunOf(plan, layers);
    var e := run.entries[i];
    assert EntryExplained(plan, run, i);
    if e.outcome.Attempted? {
      var j: nat :| j <= i && AgainstFirst(plan, run, i, j);
      ExecutedTells(plan.platform, plan.nodes[e.id], plan.input, run.outputs[..j]);
    }
  }

  /** A run ends failed exactly if an attempted node neither declined nor delivered. */
  lemma FailsExactly(plan: Plan, layers: seq<seq<Id>>)
    requires forall k :: 0 <= k < |layers| ==> AreNodes(plan, layers[k]) && Distinct(layers[k])
    ensures
      var run := RunOf(plan, layers);
      && |run.outputs| == |run.entries| && (forall i :: 0 <= i < |run.entries| ==> run.entries[i].id in plan.nodes)
      && (run.failed <==> exists i :: 0 <= i < |run.entries| && FailedEntry(plan, run, i))
  {
    hide RunOf, Tells, ExecuteNode, Scope, FailedEntry;
    RunExplained(plan, layers);
    var run := RunOf(plan, layers);
    forall i | 0 <= i < |run.entries|
      ensures run.entries[i].id in plan.nodes
      ensures FailedEntry(plan, run, i) <==> run.entries[i].outcome.Attempted? && !run.entries[i].outcome.success
    {
      assert EntryExplained(plan, run, i);
      FailedEntryIs(plan, run, i);
    }
  }

  /** Executed against the outputs recorded up to some earlier moment, the node neither declined nor delivered. */
  ghost predicate FailedEntry(plan: Plan, run: Run, i: nat)
    requires i < |run.entries| && |run.outputs| == |run.entries| && run.entries[i].id in plan.nodes
  {
    var p, node := plan.platform, plan.nodes[run.entries[i].id];
    exists j: nat :: j <= i && AgainstFirst(plan, run, i, j)
      && !Declines(p, node, Scope(plan.input, run.outputs[..j]))
      && !exists output :: Delivers(p, node, Scope(plan.input, run.outputs[..j]), output)
  }

  lemma FailedEntryIs(plan: Plan, run: Run, i: nat)
    requires i < |run.entries| && |run.outputs| == |run.entries| && EntryExplained(plan, run, i)
    ensures FailedEntry(plan, run, i) <==> run.entries[i].outcome.Attempted? && !run.entries[i].outcome.success
  {
    hide ExecuteNode, Scope, Declines, Delivers, DoneBefore;
    var p, node := plan.platform, plan.nodes[run.entries[i].id];
    forall j: nat | j <= i && AgainstFirst(plan, run, i, j)
      ensures Tells(p, node, Scope(plan.input, run.outputs[..j]), run.entries[i].outcome)
    {
      ExecutedTells(p, node, plan.input, run.outputs[..j]);
    }
  }
}
