/** Validation of workflow definitions. */
module Definition {
  import opened Common
  import opened Graph
  import opened Templates
  import opened Workflow

  function Indexed(nodes: seq<Node>): map<Id, Node> {
    if nodes == [] then map[] else Indexed(nodes[..|nodes| - 1])[nodes[|nodes| - 1].id := nodes[|nodes| - 1]]
  }

  function IdsOf(nodes: seq<Node>): seq<Id> { seq(|nodes|, i requires 0 <= i < |nodes| => nodes[i].id) }

  ghost predicate NodesValid(nodes: seq<Node>, available: set<string>) {
    && Distinct(IdsOf(nodes))
    && forall i :: 0 <= i < |nodes| ==> IdShaped(nodes[i].id) && nodes[i].tool in available
  }

  /** What a definition must satisfy; a limit of zero is no limit. */
  ghost predicate Acceptable(nodes: seq<Node>, available: set<string>, maxNodes: nat, maxDepth: nat) {
    var g := GraphOf(Indexed(nodes));
    && nodes != [] && (maxNodes > 0 ==> |nodes| <= maxNodes)
    && NodesValid(nodes, available)
    && Closed(g) && Acyclic(g)
    && (maxDepth > 0 ==> forall p :: Chain(g, p) ==> |p| <= maxDepth)
    && ReferencesCovered(Indexed(nodes))
  }

  lemma {:induction false} IndexedKeys(nodes: seq<Node>)
    ensures forall n :: n in Indexed(nodes) <==> n in IdsOf(nodes)
    ensures forall n :: n in Indexed(nodes) ==> Indexed(nodes)[n].id == n
  {
    if nodes != [] {
      var front, last := nodes[..|nodes| - 1], nodes[|nodes| - 1];
      IndexedKeys(front);
      assert IdsOf(nodes) == IdsOf(front) + [last.id];
    }
  }

  lemma {:induction false} IndexedIs(nodes: seq<Node>)
    ensures forall n :: n in Indexed(nodes) <==> n in IdsOf(nodes)
    ensures Distinct(IdsOf(nodes)) ==>
      forall i :: 0 <= i < |nodes| ==> nodes[i].id in Indexed(nodes) && Indexed(nodes)[nodes[i].id] == nodes[i]
    ensures forall n :: n in Indexed(nodes) ==> Indexed(nodes)[n].id == n
  {
    IndexedKeys(nodes);
    if nodes != [] && Distinct(IdsOf(nodes)) {
      var front, last := nodes[..|nodes| - 1], nodes[|nodes| - 1];
      assert forall i :: 0 <= i < |front| ==> IdsOf(front)[i] == IdsOf(nodes)[i];
      IndexedIs(front);
      forall i | 0 <= i < |front| ensures nodes[i].id in Indexed(nodes) && Indexed(nodes)[nodes[i].id] == nodes[i] {
        assert IdsOf(nodes)[i] != IdsOf(nodes)[|nodes| - 1] && front[i] == nodes[i];
      }
    }
  }

  /** One to eighty letters, digits, underscores and dashes. */
  ghost predicate NamedWithin(id: Id) {
    && id != "" && |id| < 81
    && forall c :: c in id ==> c == '-' || c == '_' || '0' <= c <= '9' || 'A' <= c <= 'Z' || 'a' <= c <= 'z'
  }

  lemma ShapedIsNamed(id: Id)
    ensures IdShaped(id) <==> NamedWithin(id)
  {
    if NamedWithin(id) {
      forall i | 0 <= i < |id| ensures IdChar(id[i]) { assert id[i] in id; }
    }
  }

  method CheckNodes(nodes: seq<Node>, available: set<string>) returns (ok: bool, byId: map<Id, Node>)
    ensures ok <==> NodesValid(nodes, available)
    ensures ok <==> Distinct(IdsOf(nodes)) && forall i :: 0 <= i < |nodes| ==> NamedWithin(nodes[i].id) && nodes[i].tool in available
    ensures ok ==> byId == Indexed(nodes)
  {
    hide IdShaped, NamedWithin;
    forall k | 0 <= k < |nodes| ensures IdShaped(nodes[k].id) <==> NamedWithin(nodes[k].id) { ShapedIsNamed(nodes[k].id); }
    byId := map[];
    var i := 0;
    assert nodes[..0] == [];
    while i < |nodes|
      invariant i <= |nodes|
      invariant byId == Indexed(nodes[..i])
      invariant NodesValid(nodes[..i], available)
    {
      var node := nodes[i];
      IndexedIs(nodes[..i]);
      assert nodes[..i + 1][..i] == nodes[..i];
      ValidSnoc(nodes, i, available);
      if !IdShaped(node.id) || node.id in byId || node.tool !in available {
        ValidPrefix(nodes, i + 1, available);
        return false, byId;
      }
      byId := byId[node.id := node];
      i := i + 1;
    }
    assert nodes[..|nodes|] == nodes;
    ok := true;
  }

  lemma ValidSnoc(nodes: seq<Node>, i: nat, available: set<string>)
    requires i < |nodes| && NodesValid(nodes[..i], available)
    ensures NodesValid(nodes[..i + 1], available) <==>
      IdShaped(nodes[i].id) && nodes[i].id !in IdsOf(nodes[..i]) && nodes[i].tool in available
  {
    hide IdShaped;
    var before, after := nodes[..i], nodes[..i + 1];
    assert IdsOf(after) == IdsOf(before) + [nodes[i].id];
    assert after[i] == nodes[i];
    if nodes[i].id in IdsOf(before) {
      var j :| 0 <= j < i && IdsOf(before)[j] == nodes[i].id;
      assert IdsOf(after)[j] == IdsOf(after)[i];
    }
  }

  lemma ValidPrefix(nodes: seq<Node>, i: nat, available: set<string>)
    requires i <= |nodes|
    ensures NodesValid(nodes, available) ==> NodesValid(nodes[..i], available)
  {
    hide IdShaped;
    assert forall k :: 0 <= k < i ==> IdsOf(nodes[..i])[k] == IdsOf(nodes)[k];
  }

  /** No missing dependency and no node that depends on itself. */
  method CheckDependencies(nodes: seq<Node>, byId: map<Id, Node>) returns (ok: bool)
    requires forall n :: n in byId <==> exists i :: 0 <= i < |nodes| && nodes[i].id == n
    requires forall i :: 0 <= i < |nodes| ==> nodes[i].id in byId && byId[nodes[i].id] == nodes[i]
    ensures ok <==> Closed(GraphOf(byId)) && forall n :: n in byId ==> n !in byId[n].dependsOn
  {
    var g := GraphOf(byId);
    var i := 0;
    while i < |nodes|
      invariant i <= |nodes|
      invariant forall j :: 0 <= j < i ==> g[nodes[j].id] <= g.Keys && nodes[j].id !in nodes[j].dependsOn
    {
      var n := nodes[i].id;
      assert n in g;
      if !(g[n] <= byId.Keys) || n in nodes[i].dependsOn { return false; }
      i := i + 1;
    }
    forall n | n in g ensures g[n] <= g.Keys && n !in byId[n].dependsOn {
      var j :| 0 <= j < |nodes| && nodes[j].id == n;
    }
    ok := true;
  }

  method CheckReferences(nodes: seq<Node>, byId: map<Id, Node>) returns (ok: bool)
    requires forall n :: n in byId <==> exists i :: 0 <= i < |nodes| && nodes[i].id == n
    requires forall i :: 0 <= i < |nodes| ==> nodes[i].id in byId && byId[nodes[i].id] == nodes[i]
    requires Closed(GraphOf(byId))
    ensures ok <==> ReferencesCovered(byId)
  {
    hide References, AncestorSet;
    var g := GraphOf(byId);
    var i := 0;
    while i < |nodes|
      invariant i <= |nodes|
      invariant forall j :: 0 <= j < i ==>
        References(nodes[j].arguments) + References(nodes[j].when) <= AncestorSet(g, nodes[j].id)
    {
      var node := nodes[i];
      var ancestors := Ancestors(g, node.id);
      if !(References(node.arguments) + References(node.when) <= ancestors) { return false; }
      i := i + 1;
    }
    forall n | n in byId
      ensures References(byId[n].arguments) + References(byId[n].when) <= AncestorSet(g, n)
    {
      var j :| 0 <= j < |nodes| && nodes[j].id == n;
    }
    ok := true;
  }

  lemma NoSelfDependency(byId: map<Id, Node>)
    requires Closed(GraphOf(byId)) && Acyclic(GraphOf(byId))
    ensures forall n :: n in byId ==> n !in byId[n].dependsOn
  {
    forall n | n in byId ensures n !in byId[n].dependsOn {
      if n in byId[n].dependsOn { DependencyReached(GraphOf(byId), n, n); }
    }
  }

  lemma IdsListed(nodes: seq<Node>)
    requires Distinct(IdsOf(nodes))
    ensures Listing(IdsOf(nodes), GraphOf(Indexed(nodes)))
    ensures forall n :: n in Indexed(nodes) <==> exists i :: 0 <= i < |nodes| && nodes[i].id == n
    ensures forall i :: 0 <= i < |nodes| ==> nodes[i].id in Indexed(nodes) && Indexed(nodes)[nodes[i].id] == nodes[i]
  {
    hide Indexed;
    IndexedIs(nodes);
    forall n ensures n in IdsOf(nodes) <==> exists i :: 0 <= i < |nodes| && nodes[i].id == n {
      if i :| 0 <= i < |nodes| && nodes[i].id == n { assert IdsOf(nodes)[i] == n; }
    }
  }

  /** A definition is accepted if and only if it is acceptable, and then its layers are those of its dependency graph. */
  method Validate(nodes: seq<Node>, available: set<string>, maxNodes: nat, maxDepth: nat)
    returns (result: Result<seq<seq<Id>>>, ghost rank: map<Id, nat>)
    ensures result.Ok? <==> Acceptable(nodes, available, maxNodes, maxDepth)
    ensures result.Ok? ==> Layered(GraphOf(Indexed(nodes)), result.value, rank) && Accepted(Indexed(nodes))
  {
    hide Acyclic, Layered, NodesValid, GraphOf, ReferencesCovered, Indexed;
    rank := map[];
    if |nodes| < 1 || (maxNodes > 0 && |nodes| > maxNodes) { return Err("workflow must contain 1 to the maximum of nodes"), rank; }
    var ok, byId := CheckNodes(nodes, available);
    if !ok { return Err("invalid node"), rank; }
    ValidIds(nodes, available);
    IdsListed(nodes);
    ok := CheckDependencies(nodes, byId);
    if !ok {
      if Closed(GraphOf(byId)) && Acyclic(GraphOf(byId)) { NoSelfDependency(byId); }
      return Err("invalid dependencies"), rank;
    }
    var layering;
    layering, rank := ExecutionLayers(IdsOf(nodes), GraphOf(byId));
    if layering.Cycle? { return Err("workflow graph contains a cycle"), rank; }
    if maxDepth > 0 { DepthIsExact(GraphOf(byId), layering.layers, rank, maxDepth); }
    if maxDepth > 0 && |layering.layers| > maxDepth { return Err("workflow depth exceeds runtime limit"), rank; }
    ok := CheckReferences(nodes, byId);
    if !ok { return Err("node references nodes outside its dependencies"), rank; }
    AcceptedIndexed(nodes, available);
    result := Ok(layering.layers);
  }

  lemma ValidIds(nodes: seq<Node>, available: set<string>)
    requires NodesValid(nodes, available)
    ensures Distinct(IdsOf(nodes))
  {
  }

  lemma AcceptedIndexed(nodes: seq<Node>, available: set<string>)
    requires NodesValid(nodes, available) && ReferencesCovered(Indexed(nodes))
    requires Closed(GraphOf(Indexed(nodes))) && Acyclic(GraphOf(Indexed(nodes)))
    ensures Accepted(Indexed(nodes))
  {
    hide ReferencesCovered, Closed, Acyclic, GraphOf, Indexed, IdShaped;
    IndexedIs(nodes);
    forall n | n in Indexed(nodes) ensures IdShaped(n) {
      assert n in IdsOf(nodes);
    }
  }
}
