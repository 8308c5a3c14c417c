/** Workflow nodes, how one node executes, and what a run means, recursively on the dependency graph. */
module Workflow {
  import opened Common
  import opened Graph
  import opened Templates

  datatype Node = Node(id: Id, tool: string, arguments: Value, dependsOn: seq<Id>, when: Value)

  datatype ToolResult = Raised(error: string) | Returned(status: string, output: Value, errors: seq<string>)

  /** Code outside the engine: value rendering, argument canonicalisation and size, tools, and the read-only test. */
  datatype Platform = Platform(
    show: Value -> string,
    canonicalize: (string, Value) -> Result<Value>,
    encodedSize: Value -> nat,
    invoke: (Id, string, Value) -> ToolResult,
    readOnly: (string, Value) -> bool)

  /** A definition together with the input and the platform it runs on. */
  datatype Plan = Plan(nodes: map<Id, Node>, input: Value, platform: Platform)

  /** What became of a node: it was attempted, or kept from running by dependencies that did not succeed. */
  datatype Outcome =
    | Attempted(status: string, errors: seq<string>, output: Value, success: bool, call: Option<Value>)
    | Blocked(failedDependencies: seq<Id>)

  const EMPTY := Object([])
  const MAX_ARGUMENT_BYTES := 1_048_576

  function Clip(s: string, n: nat): string { if |s| <= n then s else s[..n] }

  function ClipAll(errors: seq<string>): seq<string> {
    seq(if |errors| < 20 then |errors| else 20, i requires 0 <= i < |errors| => Clip(errors[i], 500))
  }

  function Failure(error: string, call: Option<Value>): Outcome {
    Attempted("failed", [Clip(error, 500)], EMPTY, false, call)
  }

  /** One node against the outputs recorded so far. `call` holds the resolved arguments of the call, if one was made. */
  function ExecuteNode(p: Platform, node: Node, input: Value, outputs: seq<Field>): (o: Outcome)
    ensures o.Attempted?
  {
    var scope := Scope(input, outputs);
    match Resolve(node.when, scope, p.show)
    case Err(e) => Failure(e, None)
    case Ok(w) =>
      if !Truthy(w) then Attempted("skipped", [], EMPTY, true, None) else
      match Resolve(node.arguments, scope, p.show)
      case Err(e) => Failure(e, None)
      case Ok(arguments) => InvokeNode(p, node, arguments)
  }

  function InvokeNode(p: Platform, node: Node, arguments: Value): (o: Outcome)
    ensures o.Attempted?
  {
    match p.canonicalize(node.tool, arguments)
    case Err(e) => Failure(e, None)
    case Ok(canonical) =>
      if p.encodedSize(canonical) > MAX_ARGUMENT_BYTES then
        Failure("resolved arguments are too large: " + node.id, None)
      else match p.invoke(node.id, node.tool, canonical)
        case Raised(e) => Failure(e, Some(arguments))
        case Returned(status, output, errors) =>
          var success := status == "succeeded" || status == "dry_run";
          Attempted(status, ClipAll(errors), if success then output else EMPTY, success, Some(arguments))
  }

  /** What dependants see: a node skipped by its own condition does not count as success. */
  predicate Succeeded(o: Outcome) {
    o.Attempted? && o.success && o.status != "skipped" && o.status != "cancelled"
  }

  function OutputOf(o: Outcome): Value { if o.Attempted? then o.output else EMPTY }

  // ---- Accepted definitions ----

  function GraphOf(nodes: map<Id, Node>): Graph {
    map n | n in nodes :: set d | d in nodes[n].dependsOn
  }

  ghost predicate WellFormed(nodes: map<Id, Node>) {
    && (forall n :: n in nodes ==> nodes[n].id == n && IdShaped(n))
    && Closed(GraphOf(nodes)) && Acyclic(GraphOf(nodes))
  }

  /** Every node a definition mentions in a template is one of its transitive dependencies. */
  ghost predicate ReferencesCovered(nodes: map<Id, Node>) {
    forall n :: n in nodes ==>
      References(nodes[n].arguments) + References(nodes[n].when) <= AncestorSet(GraphOf(nodes), n)
  }

  /** Templates have the shape the reference check looks at. */
  ghost predicate TemplatesChecked(nodes: map<Id, Node>) {
    forall n :: n in nodes ==> AllChecked(nodes[n].arguments) && AllChecked(nodes[n].when)
  }

  /** No template looks at a node that is not a transitive dependency. */
  ghost predicate TemplatesStable(nodes: map<Id, Node>) {
    forall n :: n in nodes ==>
      && AllStable(nodes[n].arguments, AncestorSet(GraphOf(nodes), n))
      && AllStable(nodes[n].when, AncestorSet(GraphOf(nodes), n))
  }

  ghost predicate Accepted(nodes: map<Id, Node>) {
    WellFormed(nodes) && ReferencesCovered(nodes)
  }

  /** Accepted definitions whose templates have the checked shape look only at transitive dependencies. */
  lemma AcceptedAreStable(nodes: map<Id, Node>)
    requires ReferencesCovered(nodes) && TemplatesChecked(nodes)
    ensures TemplatesStable(nodes)
  {
    hide References, AllChecked, AllStable, AncestorSet, GraphOf;
    forall n | n in nodes
      ensures AllStable(nodes[n].arguments, AncestorSet(GraphOf(nodes), n)) && AllStable(nodes[n].when, AncestorSet(GraphOf(nodes), n))
    {
      CheckedIsStable(nodes[n].arguments, AncestorSet(GraphOf(nodes), n));
      CheckedIsStable(nodes[n].when, AncestorSet(GraphOf(nodes), n));
    }
  }

  // ---- The meaning of a run ----

  ghost function Listed(s: set<Id>): (r: seq<Id>)
    ensures forall n :: n in r <==> n in s
  {
    if s == {} then [] else var n :| n in s; [n] + Listed(s - {n})
  }

  /**
   * The recursive meaning of a node: blocked by dependencies that did not succeed, otherwise executed against the
   * outputs of its transitive dependencies alone.
   */
  ghost function Meaning(plan: Plan, n: Id): Outcome
    requires WellFormed(plan.nodes) && n in plan.nodes
    decreases AncestorSet(GraphOf(plan.nodes), n), 1, 0
  {
    var failing := Failing(plan, n, plan.nodes[n].dependsOn);
    if failing != [] then Blocked(failing)
    else ExecuteNode(plan.platform, plan.nodes[n], plan.input, Outputs(plan, n, Listed(AncestorSet(GraphOf(plan.nodes), n))))
  }

  ghost function Failing(plan: Plan, n: Id, deps: seq<Id>): seq<Id>
    requires WellFormed(plan.nodes) && n in plan.nodes && forall d :: d in deps ==> d in plan.nodes[n].dependsOn
    decreases AncestorSet(GraphOf(plan.nodes), n), 0, |deps|
  {
    if deps == [] then [] else
      DependencyReached(GraphOf(plan.nodes), n, deps[0]);
      AncestorsShrink(GraphOf(plan.nodes), n, deps[0]);
      (if Succeeded(Meaning(plan, deps[0])) then [] else [deps[0]]) + Failing(plan, n, deps[1..])
  }

  ghost function Outputs(plan: Plan, n: Id, names: seq<Id>): seq<Field>
    requires WellFormed(plan.nodes) && n in plan.nodes && forall a :: a in names ==> a in AncestorSet(GraphOf(plan.nodes), n)
    decreases AncestorSet(GraphOf(plan.nodes), n), 0, |names|
  {
    if names == [] then [] else
      assert names[0] in AncestorSet(GraphOf(plan.nodes), n);
      AncestorsShrink(GraphOf(plan.nodes), n, names[0]);
      [Field(names[0], OutputOf(Meaning(plan, names[0])))] + Outputs(plan, n, names[1..])
  }

  lemma {:induction false} OutputsOf(plan: Plan, n: Id, names: seq<Id>, x: Id)
    requires WellFormed(plan.nodes) && n in plan.nodes
    requires forall a :: a in names ==> a in AncestorSet(GraphOf(plan.nodes), n)
    ensures IdKeys(Outputs(plan, n, names))
    ensures x in names ==> Find(Outputs(plan, n, names), x) == Some(OutputOf(Meaning(plan, x)))
  {
    hide AncestorSet, Meaning, IdShaped;
    if names != [] {
      assert names[0] in AncestorSet(GraphOf(plan.nodes), n);
      AncestorIsNode(plan.nodes, n, names[0]);
      OutputsOf(plan, n, names[1..], x);
      var f := Field(names[0], OutputOf(Meaning(plan, names[0])));
      assert Outputs(plan, n, names) == [f] + Outputs(plan, n, names[1..]);
    }
  }

  lemma AncestorIsNode(nodes: map<Id, Node>, n: Id, a: Id)
    requires a in AncestorSet(GraphOf(nodes), n)
    ensures a in nodes
  {
  }

  // ---- Attempted exactly when every ancestor succeeded ----

  lemma {:induction false} FailingEmpty(plan: Plan, n: Id, deps: seq<Id>)
    requires WellFormed(plan.nodes) && n in plan.nodes && forall d :: d in deps ==> d in plan.nodes[n].dependsOn
    ensures Failing(plan, n, deps) == [] <==> forall d :: d in deps ==> d in plan.nodes && Succeeded(Meaning(plan, d))
  {
    hide Meaning, Succeeded, Acyclic;
    if deps != [] {
      assert deps[0] in GraphOf(plan.nodes)[n];
      FailingEmpty(plan, n, deps[1..]);
      assert deps == [deps[0]] + deps[1..];
    }
  }

  lemma AttemptedByDependencies(plan: Plan, n: Id)
    requires WellFormed(plan.nodes) && n in plan.nodes
    ensures Meaning(plan, n).Attempted? <==>
      forall d :: d in GraphOf(plan.nodes)[n] ==> d in plan.nodes && Succeeded(Meaning(plan, d))
  {
    hide Acyclic, Succeeded, Outputs, AncestorSet;
    FailingEmpty(plan, n, plan.nodes[n].dependsOn);
  }

  /** A node is attempted if and only if each of its transitive dependencies succeeded. */
  lemma {:induction false} AttemptedExactly(plan: Plan, n: Id)
    requires WellFormed(plan.nodes) && n in plan.nodes
    ensures Meaning(plan, n).Attempted? <==>
      forall a :: a in AncestorSet(GraphOf(plan.nodes), n) ==> a in plan.nodes && Succeeded(Meaning(plan, a))
    decreases AncestorSet(GraphOf(plan.nodes), n)
  {
    hide Meaning, Reaches, Acyclic, GraphOf;
    var g := GraphOf(plan.nodes);
    GraphKeys(plan.nodes);
    AttemptedByDependencies(plan, n);
    if Meaning(plan, n).Attempted? {
      forall a | a in AncestorSet(g, n) ensures a in plan.nodes && Succeeded(Meaning(plan, a)) {
        var d := ReachesFirstStep(g, n, a);
        if a != d {
          DependencyReached(g, n, d);
          AncestorsShrink(g, n, d);
          AttemptedExactly(plan, d);
        }
      }
    } else {
      var d :| d in g[n] && !Succeeded(Meaning(plan, d));
      DependencyReached(g, n, d);
      assert d in AncestorSet(g, n);
    }
  }

  lemma GraphKeys(nodes: map<Id, Node>)
    ensures GraphOf(nodes).Keys == nodes.Keys
  {
  }

  /** Only a node whose tool was called succeeds. */
  lemma SuccessMeansCalled(plan: Plan, n: Id)
    requires WellFormed(plan.nodes) && n in plan.nodes && Succeeded(Meaning(plan, n))
    ensures Meaning(plan, n).call.Some?
  {
  }

  /** A tool is called only if the tool of every transitive dependency was called and succeeded. */
  lemma CalledAfterAncestors(plan: Plan, n: Id, a: Id)
    requires WellFormed(plan.nodes) && n in plan.nodes && a in AncestorSet(GraphOf(plan.nodes), n)
    requires Meaning(plan, n).Attempted? && Meaning(plan, n).call.Some?
    ensures a in plan.nodes && Succeeded(Meaning(plan, a)) && Meaning(plan, a).call.Some?
  {
    AttemptedExactly(plan, n);
    SuccessMeansCalled(plan, a);
  }
}
