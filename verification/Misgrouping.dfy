/** A definition the reference check accepts and whose run breaks what grouping promises. */
module Misgrouping {
  import opened Common
  import opened Ordering
  import opened Graph
  import opened Templates
  import opened Workflow
  import opened Engine
  import opened Refinement

  const NO_CONDITION := Bool(true)

  /** Arguments with a bare reference to a node, and what they resolve to once its output is recorded. */
  function Bare(a: Id): Value { Object([Field("x", Str("${nodes." + a + "}"))]) }

  function Filled(v: Value): Value { Object([Field("x", Object([Field("output", v)]))]) }

  /** Three independent nodes: a write, a call with a bare reference to it, and a read. */
  function Three(a: Id, b: Id, c: Id, write: string, read: string): map<Id, Node> {
    map[a := Node(a, write, EMPTY, [], NO_CONDITION),
        b := Node(b, read, Bare(a), [], NO_CONDITION),
        c := Node(c, read, EMPTY, [], NO_CONDITION)]
  }

  /** Their ids in recording order. */
  predicate Ordered(a: Id, b: Id, c: Id) {
    && IdShaped(a) && IdShaped(b) && IdShaped(c)
    && a != b && b != c && a != c && StringLe(a, b) && StringLe(b, c) && StringLe(a, c)
  }

  /**
   * The write succeeds with output v; the other tool reads unless it is given that output, and accepts both arguments.
   */
  predicate Judges(p: Platform, a: Id, write: string, read: string, v: Value) {
    && !p.readOnly(write, EMPTY) && p.readOnly(read, EMPTY) && p.readOnly(read, Bare(a)) && !p.readOnly(read, Filled(v))
    && p.canonicalize(write, EMPTY).Ok? && p.encodedSize(p.canonicalize(write, EMPTY).value) <= MAX_ARGUMENT_BYTES
    && p.invoke(a, write, p.canonicalize(write, EMPTY).value) == Returned("succeeded", v, [])
    && p.canonicalize(read, Filled(v)).Ok? && p.encodedSize(p.canonicalize(read, Filled(v)).value) <= MAX_ARGUMENT_BYTES
  }

  /** There are such platforms. */
  function Sample(read: string, v: Value): Platform {
    Platform(value => "", (tool, arguments) => Ok(arguments), arguments => 0,
             (node, tool, arguments) => Returned("succeeded", v, []),
             (tool, arguments) => tool == read && arguments != Filled(v))
  }

  lemma SampleJudges(a: Id, write: string, read: string, v: Value)
    requires write != read
    ensures Judges(Sample(read, v), a, write, read, v)
  {
    assert Bare(a).fields[0] != Filled(v).fields[0];
    assert EMPTY.fields != Filled(v).fields;
  }

  // ---- The definition is accepted ----

  lemma NoEdges(nodes: map<Id, Node>)
    requires forall n :: n in nodes ==> nodes[n].id == n && IdShaped(n) && nodes[n].dependsOn == []
    ensures WellFormed(nodes)
    ensures forall n :: n in nodes ==> AncestorSet(GraphOf(nodes), n) == {}
  {
    hide IdShaped;
    var g := GraphOf(nodes);
    forall n | n in g ensures g[n] == {} { assert nodes[n].dependsOn == []; }
    forall n, x ensures !Reaches(g, n, x) {
      forall p ensures !ChainBetween(g, p, n, x) { if |p| >= 2 && p[0] in g { assert p[0 + 1] !in g[p[0]]; } }
    }
  }

  lemma ThreeAccepted(a: Id, b: Id, c: Id, write: string, read: string)
    requires Ordered(a, b, c)
    ensures Accepted(Three(a, b, c, write, read)) && !TemplatesStable(Three(a, b, c, write, read))
  {
    hide IdShaped, StringLe, AncestorSet, GraphOf, WellFormed, References, AllStable;
    var nodes := Three(a, b, c, write, read);
    NoEdges(nodes);
    BareReferences(a);
    NothingReferenced();
    BareIsUnstable(a);
    assert b in nodes && nodes[b].arguments == Bare(a);
  }

  lemma BareReferences(a: Id)
    requires IdShaped(a)
    ensures References(Bare(a)) == {}
  {
    hide IdShaped, References;
    BareReferenceEscapes(a, {});
    OneField(Str("${nodes." + a + "}"));
  }

  lemma BareIsUnstable(a: Id)
    requires IdShaped(a)
    ensures !AllStable(Bare(a), {})
  {
    hide IdShaped, LooksOnlyAt, TemplateAt, AllStable;
    BareTemplate(a);
    BareLooksElsewhere(a, {});
    assert !TextStable("${nodes." + a + "}", {});
    BareUnstable(a);
  }

  lemma BareUnstable(a: Id)
    requires !TextStable("${nodes." + a + "}", {})
    ensures !AllStable(Bare(a), {})
  {
    hide TextStable;
    var fields := [Field("x", Str("${nodes." + a + "}"))];
    assert !AllStable(fields[0].value, {});
  }

  lemma NothingReferenced()
    ensures References(EMPTY) == {} && References(NO_CONDITION) == {}
  {
  }

  lemma OneField(text: Value)
    ensures References(Object([Field("x", text)])) == References(text)
  {
    var fields := [Field("x", text)];
    assert fields[1..] == [];
    assert ReferencesInFields(fields) == References(text) + ReferencesInFields(fields[1..]);
  }

  /** Nodes without dependencies make one layer. */
  lemma OneLayerOf(g: Graph, layer: seq<Id>, rank: map<Id, nat>)
    requires layer != [] && Distinct(layer) && SortedBy(layer, StringLe)
    requires rank.Keys == g.Keys && forall n :: n in g <==> n in layer
    requires forall n :: n in g ==> g[n] == {} && rank[n] == 0
    ensures Layered(g, [layer], rank)
  {
    hide StringLe, SortedBy, Distinct;
    assert Members([layer], rank);
    assert Downward(g, rank);
    assert Tight(g, rank);
  }

  lemma OneLayer(a: Id, b: Id, c: Id, write: string, read: string)
    requires Ordered(a, b, c)
    ensures Layered(GraphOf(Three(a, b, c, write, read)), [[a, b, c]], map[a := 0, b := 0, c := 0])
  {
    hide StringLe, IdShaped, Layered;
    var nodes := Three(a, b, c, write, read);
    var g := GraphOf(nodes);
    assert g.Keys == {a, b, c};
    forall n | n in g ensures g[n] == {} { assert nodes[n].dependsOn == []; }
    OneLayerOf(g, [a, b, c], map[a := 0, b := 0, c := 0]);
  }

  // ---- What the executor does with it ----

  lemma {:induction false} AllRunnable(plan: Plan, run: Run, layer: seq<Id>, index: nat)
    requires AreNodes(plan, layer) && forall n :: n in layer ==> plan.nodes[n].dependsOn == [] && n !in run.outcomes
    ensures SkipRun(plan, run, layer, index) == run && RunnableOf(plan, run, layer, index) == layer
  {
    if layer != [] {
      AllRunnable(plan, run, layer[..|layer| - 1], index);
      assert layer == layer[..|layer| - 1] + [layer[|layer| - 1]];
    }
  }

  lemma ResolvesBare(a: Id, input: Value, v: Value, show: Value -> string)
    requires IdShaped(a)
    ensures Resolve(Bare(a), Scope(input, []), show).Err?
    ensures Resolve(Bare(a), Scope(input, [Field(a, v)]), show) == Ok(Filled(v))
    ensures forall outputs :: Resolve(EMPTY, Scope(input, outputs), show) == Ok(EMPTY)
  {
    hide Scope;
    BareResolves(a, input, v, show);
    OneFieldResolves(Str("${nodes." + a + "}"), Scope(input, []), show);
    OneFieldResolves(Str("${nodes." + a + "}"), Scope(input, [Field(a, v)]), show);
  }

  lemma OneFieldResolves(text: Value, scope: Value, show: Value -> string)
    ensures Resolve(Object([Field("x", text)]), scope, show) ==
      match Resolve(text, scope, show) case Ok(v) => Ok(Object([Field("x", v)])) case Err(e) => Err(e)
  {
    var fields := [Field("x", text)];
    assert fields[1..] == [];
    match Resolve(text, scope, show)
    case Err(e) => assert ResolveFields(fields, scope, show) == Err(e);
    case Ok(v) => assert ResolveFields(fields, scope, show) == Ok([Field("x", v)] + []) && [Field("x", v)] + [] == [Field("x", v)];
  }

  /** Grouping sees the unresolved arguments: the write is alone, and the two others form one parallel group. */
  lemma ThreeGroups(plan: Plan, a: Id, b: Id, c: Id, write: string, read: string, v: Value)
    requires Ordered(a, b, c) && plan.nodes == Three(a, b, c, write, read) && Judges(plan.platform, a, write, read, v)
    ensures Grouped(plan, [], [a, b, c]) == [Group(false, [a]), Group(true, [b, c])]
    ensures Preview(plan, [], b) == Bare(a)
  {
    hide Scope, Resolve, IdShaped, StringLe;
    ResolvesBare(a, plan.input, v, plan.platform.show);
    WriteThenReads(plan, [], a, b, c);
  }

  lemma WriteThenReads(plan: Plan, outputs: seq<Field>, a: Id, b: Id, c: Id)
    requires AreNodes(plan, [a, b, c])
    requires !PreviewReadOnly(plan, outputs, a) && PreviewReadOnly(plan, outputs, b) && PreviewReadOnly(plan, outputs, c)
    ensures Grouped(plan, outputs, [a, b, c]) == [Group(false, [a]), Group(true, [b, c])]
  {
    hide PreviewReadOnly, Extended, AllNodes, Grouped;
    var one, two := [Group(false, [a])], [Group(false, [a]), Group(true, [b])];
    SmallGroups(plan, a, b);
    NothingGrouped(plan, outputs);
    GroupedNext(plan, outputs, [], a);
    StartsGroup(plan, outputs, [], a);
    assert [] + [a] == [a] && [] + [Group(false, [a])] == one;
    GroupedNext(plan, outputs, [a], b);
    StartsGroup(plan, outputs, one, b);
    assert [a] + [b] == [a, b] && one + [Group(true, [b])] == two;
    GroupedNext(plan, outputs, [a, b], c);
    JoinsGroup(plan, outputs, two, c);
    assert [a, b] + [c] == [a, b, c] && two[..1] == one && [b] + [c] == [b, c];
  }

  lemma NothingGrouped(plan: Plan, outputs: seq<Field>)
    ensures Grouped(plan, outputs, []) == []
  {
  }

  lemma GroupedNext(plan: Plan, outputs: seq<Field>, ids: seq<Id>, n: Id)
    requires AreNodes(plan, ids) && n in plan.nodes
    ensures Grouped(plan, outputs, ids + [n]) == Extended(plan, outputs, Grouped(plan, outputs, ids), n)
  {
    hide Extended;
    assert (ids + [n])[..|ids|] == ids;
  }

  lemma SmallGroups(plan: Plan, a: Id, b: Id)
    requires a in plan.nodes && b in plan.nodes
    ensures AllNodes(plan, [Group(false, [a])]) && AllNodes(plan, [Group(false, [a]), Group(true, [b])]) && AllNodes(plan, [])
  {
  }

  lemma StartsGroup(plan: Plan, outputs: seq<Field>, groups: seq<Group>, n: Id)
    requires n in plan.nodes && AllNodes(plan, groups) && (groups != [] ==> !groups[|groups| - 1].parallel)
    ensures Extended(plan, outputs, groups, n) == groups + [Group(PreviewReadOnly(plan, outputs, n), [n])]
  {
  }

  lemma JoinsGroup(plan: Plan, outputs: seq<Field>, groups: seq<Group>, n: Id)
    requires n in plan.nodes && AllNodes(plan, groups) && groups != [] && groups[|groups| - 1].parallel
    requires PreviewReadOnly(plan, outputs, n)
    ensures Extended(plan, outputs, groups, n) == groups[..|groups| - 1] + [Group(true, groups[|groups| - 1].ids + [n])]
  {
  }

  lemma OutcomesOfCalls(plan: Plan, a: Id, b: Id, c: Id, write: string, read: string, v: Value)
    requires Ordered(a, b, c) && plan.nodes == Three(a, b, c, write, read) && Judges(plan.platform, a, write, read, v)
    ensures Ended(plan, [], a) == Attempted("succeeded", [], v, true, Some(EMPTY))
    ensures
      var o := Ended(plan, [Field(a, v)], b);
      o.Attempted? && o.call == Some(Filled(v))
  {
    hide Scope, Resolve, IdShaped, StringLe;
    ResolvesBare(a, plan.input, v, plan.platform.show);
    ConditionHolds(Scope(plan.input, []), plan.platform.show);
    ConditionHolds(Scope(plan.input, [Field(a, v)]), plan.platform.show);
  }

  lemma ConditionHolds(scope: Value, show: Value -> string)
    ensures Resolve(NO_CONDITION, scope, show) == Ok(NO_CONDITION)
  {
  }

  lemma RunOne(plan: Plan, run: Run, n: Id, index: nat)
    requires n in plan.nodes
    ensures GroupRun(plan, run, Group(false, [n]), index) == Commit(run, n, Ended(plan, run.outputs, n), index, false)
  {
    hide Commit, Ended;
    assert [n][..0] == [];
    assert RunIds(plan, run, run.outputs, [n][..0], index, false) == run;
  }

  lemma RunTwo(plan: Plan, run: Run, m: Id, n: Id, index: nat)
    requires m in plan.nodes && n in plan.nodes
    ensures GroupRun(plan, run, Group(true, [m, n]), index) ==
      Commit(Commit(run, m, Ended(plan, run.outputs, m), index, true), n, Ended(plan, run.outputs, n), index, true)
  {
    hide Commit, Ended;
    assert [m, n][..1] == [m] && [m][..0] == [];
    assert RunIds(plan, run, run.outputs, [m][..0], index, true) == run;
    assert RunIds(plan, run, run.outputs, [m], index, true) == Commit(run, m, Ended(plan, run.outputs, m), index, true);
  }

  /**
   * Why templates must look only at dependencies. The definition is accepted, and the executor, on any platform that
   * judges and runs the calls so, puts the second node into a parallel group by arguments it is not called with: its call
   * is no read and runs beside another one.
   */
  lemma WriteInParallelGroup(plan: Plan, a: Id, b: Id, c: Id, write: string, read: string, v: Value)
    requires Ordered(a, b, c) && plan.nodes == Three(a, b, c, write, read) && Judges(plan.platform, a, write, read, v)
    ensures Accepted(plan.nodes) && Layered(GraphOf(plan.nodes), [[a, b, c]], map[a := 0, b := 0, c := 0])
    ensures
      var run := RunOf(plan, [[a, b, c]]);
      && |run.entries| == 3 && run.entries[1].id == b && run.entries[1].parallel
      && run.entries[1].outcome.Attempted? && run.entries[1].outcome.call == Some(Filled(v))
      && Preview(plan, [], b) == Bare(a) != Filled(v)
      && !plan.platform.readOnly(read, Filled(v))
      && !Orchestrated(plan, map[a := 0, b := 0, c := 0], run.entries)
  {
    hide IdShaped, StringLe, Ended, Judges, Resolve, Scope, Grouped, SkipRun, RunnableOf, Layered, Accepted, Preview;
    ThreeAccepted(a, b, c, write, read);
    OneLayer(a, b, c, write, read);
    NotARead(plan.platform, a, write, read, v);
    ThreeRun(plan, a, b, c, write, read, v);
    var e := RunOf(plan, [[a, b, c]]).entries[1];
    assert !EntryPlaced(plan, map[a := 0, b := 0, c := 0], e);
  }

  lemma ThreeRun(plan: Plan, a: Id, b: Id, c: Id, write: string, read: string, v: Value)
    requires Ordered(a, b, c) && plan.nodes == Three(a, b, c, write, read) && Judges(plan.platform, a, write, read, v)
    ensures Preview(plan, [], b) == Bare(a)
    ensures
      var run := RunOf(plan, [[a, b, c]]);
      && |run.entries| == 3
      && run.entries[1] == Entry(b, Ended(plan, [Field(a, v)], b), 1, true)
      && run.entries[1].outcome.Attempted? && run.entries[1].outcome.call == Some(Filled(v))
  {
    hide IdShaped, StringLe, Ended, Judges, Grouped, SkipRun, RunnableOf, Preview, GroupsRun, GroupRun;
    var layer := [a, b, c];
    AllRunnable(plan, NOTHING, layer, 1);
    ThreeGroups(plan, a, b, c, write, read, v);
    OutcomesOfCalls(plan, a, b, c, write, read, v);
    assert [layer][..0] == [] && RunOf(plan, [layer][..0]) == NOTHING;
    assert RunOf(plan, [layer]) == LayerRun(plan, NOTHING, layer, 1);
    TwoGroups(plan, NOTHING, Group(false, [a]), Group(true, [b, c]), 1);
    RunOne(plan, NOTHING, a, 1);
    var first := GroupRun(plan, NOTHING, Group(false, [a]), 1);
    assert first.outputs == [Field(a, v)];
    RunTwo(plan, first, b, c, 1);
  }

  lemma TwoGroups(plan: Plan, run: Run, g: Group, h: Group, index: nat)
    requires AreNodes(plan, g.ids) && AreNodes(plan, h.ids)
    ensures GroupsRun(plan, run, [g, h], index) == GroupRun(plan, GroupRun(plan, run, g, index), h, index)
  {
    hide GroupRun;
    assert [g, h][..1] == [g] && [g][..0] == [];
    assert GroupsRun(plan, run, [g][..0], index) == run;
    assert GroupsRun(plan, run, [g], index) == GroupRun(plan, run, g, index);
  }

  lemma NotARead(p: Platform, a: Id, write: string, read: string, v: Value)
    requires Judges(p, a, write, read, v)
    ensures !p.readOnly(read, Filled(v)) && Bare(a) != Filled(v)
  {
    assert Bare(a).fields[0] != Filled(v).fields[0];
  }
}
