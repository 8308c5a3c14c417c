/** JSON values with `${...}` templates: which nodes they mention and what they resolve to. */
module Templates {
  import opened Common
  import opened Text

  datatype Result<+T> = Ok(value: T) | Err(error: string) {
    predicate IsFailure() { Err? }
    function PropagateFailure<U>(): Result<U> requires Err? { Err(error) }
    function Extract(): T requires Ok? { value }
  }

  datatype Value =
    | Null
    | Bool(b: bool)
    | Number(n: real)
    | Str(s: string)
    | List(items: seq<Value>)
    | Object(fields: seq<Field>)

  datatype Field = Field(key: string, value: Value)

  function Find(fields: seq<Field>, key: string): Option<Value> {
    if fields == [] then None
    else if fields[0].key == key then Some(fields[0].value)
    else Find(fields[1..], key)
  }

  /** Python's bool() of a JSON value. */
  predicate Truthy(v: Value) {
    match v
    case Null => false
    case Bool(b) => b
    case Number(n) => n != 0.0
    case Str(s) => s != ""
    case List(items) => items != []
    case Object(fields) => fields != []
  }

  // ---- Patterns ----

  predicate IdChar(c: char) {
    'A' <= c <= 'Z' || 'a' <= c <= 'z' || '0' <= c <= '9' || c == '_' || c == '-'
  }

  predicate NoBrace(c: char) { c != '{' && c != '}' }

  /** Identifiers of workflows, runs and nodes. */
  predicate IdShaped(s: string) {
    1 <= |s| <= 80 && forall i :: 0 <= i < |s| ==> IdChar(s[i])
  }

  predicate StartsAt(s: string, i: nat, pattern: string) {
    i + |pattern| <= |s| && s[i..i + |pattern|] == pattern
  }

  /** The end of the longest run of accepted characters from i. */
  function RunEnd(s: string, i: nat, accept: char -> bool): (j: nat)
    requires i <= |s|
    ensures i <= j <= |s|
    ensures forall k :: i <= k < j ==> accept(s[k])
    ensures j < |s| ==> !accept(s[j])
    decreases |s| - i
  {
    if i < |s| && accept(s[i]) then RunEnd(s, i + 1, accept) else i
  }

  const REFERENCE := "${nodes."

  /** The node named by a match of \$\{nodes\.([A-Za-z0-9_-]+)\. at position i. */
  function ReferenceAt(s: string, i: nat): (x: Option<string>)
    ensures x.Some? ==> i + 9 + |x.value| <= |s|
  {
    if StartsAt(s, i, REFERENCE) then
      var j := RunEnd(s, i + 8, IdChar);
      if i + 8 < j < |s| && s[j] == '.' then Some(s[i + 8..j]) else None
    else None
  }

  /** The expression inside a match of \$\{([^{}]+)\} at position i. */
  function TemplateAt(s: string, i: nat): (e: Option<string>)
    ensures e.Some? ==> e.value != "" && i + |e.value| + 3 <= |s| && s[i + 2..i + 2 + |e.value|] == e.value
  {
    if StartsAt(s, i, "${") then
      var j := RunEnd(s, i + 2, NoBrace);
      if i + 2 < j < |s| && s[j] == '}' then Some(s[i + 2..j]) else None
    else None
  }

  /** Left-to-right scan for references that resumes behind each match. */
  function ScanReferences(s: string, i: nat): set<string>
    requires i <= |s|
    decreases |s| - i
  {
    if i == |s| then {}
    else match ReferenceAt(s, i)
      case Some(x) => {x} + ScanReferences(s, i + 9 + |x|)
      case None => ScanReferences(s, i + 1)
  }

  /** Inside a reference no other one starts, so resuming behind it misses nothing. */
  lemma ReferencesDoNotOverlap(s: string, i: nat, k: nat)
    requires ReferenceAt(s, i).Some?
    requires i < k < i + 9 + |ReferenceAt(s, i).value|
    ensures ReferenceAt(s, k).None?
  {
    var x := ReferenceAt(s, i).value;
    var j := i + 8 + |x|;
    assert s[i..i + 8] == REFERENCE;
    if k < i + 8 {
      assert s[k] == s[i..i + 8][k - i] == REFERENCE[k - i];
    } else if k < j {
      assert s[k] == x[k - i - 8] && IdChar(s[k]);
    }
    assert s[k] != '$';
    assert k + 8 <= |s| ==> s[k..k + 8][0] == s[k];
  }

  /** The scan finds the reference at every position that has one, and nothing else. */
  lemma {:induction false} ScanFindsAll(s: string, i: nat, x: string)
    requires i <= |s|
    ensures x in ScanReferences(s, i) <==> exists k :: i <= k < |s| && ReferenceAt(s, k) == Some(x)
    decreases |s| - i
  {
    hide ReferenceAt;
    if i < |s| {
      match ReferenceAt(s, i) {
        case Some(y) =>
          ScanFindsAll(s, i + 9 + |y|, x);
          forall k | i < k < i + 9 + |y| ensures ReferenceAt(s, k).None? { ReferencesDoNotOverlap(s, i, k); }
        case None =>
          ScanFindsAll(s, i + 1, x);
      }
    }
  }

  // ---- References ----

  function References(v: Value): set<string>
    decreases v, 1
  {
    match v
    case Str(s) => ScanReferences(s, 0)
    case List(items) => ReferencesInAll(items)
    case Object(fields) => ReferencesInFields(fields)
    case _ => {}
  }

  function ReferencesInAll(items: seq<Value>): set<string>
    decreases items, 0
  {
    if items == [] then {} else References(items[0]) + ReferencesInAll(items[1..])
  }

  function ReferencesInFields(fields: seq<Field>): set<string>
    decreases fields, 0
  {
    if fields == [] then {} else References(fields[0].value) + ReferencesInFields(fields[1..])
  }

  // ---- Resolution ----

  /** What templates see: the workflow input and the outputs recorded so far, in the order they were recorded. */
  function Scope(input: Value, outputs: seq<Field>): Value {
    Object([Field("input", input), Field("nodes", Object(Wrapped(outputs)))])
  }

  function Wrapped(outputs: seq<Field>): seq<Field> {
    if outputs == [] then [] else
      [Field(outputs[0].key, Object([Field("output", outputs[0].value)]))] + Wrapped(outputs[1..])
  }

  lemma {:induction false} FindWrapped(outputs: seq<Field>, key: string)
    ensures Find(Wrapped(outputs), key) ==
      match Find(outputs, key) case None => None case Some(v) => Some(Object([Field("output", v)]))
  {
    if outputs != [] { FindWrapped(outputs[1..], key); }
  }

  function LookupPath(v: Value, parts: seq<string>): Option<Value>
    decreases |parts|
  {
    if parts == [] then Some(v)
    else if v.Object? && Find(v.fields, parts[0]).Some? then LookupPath(Find(v.fields, parts[0]).value, parts[1..])
    else None
  }

  function Lookup(scope: Value, expression: string): Result<Value> {
    match LookupPath(scope, Split(expression, '.'))
    case Some(v) => Ok(v)
    case None => Err("workflow template value not found: " + expression)
  }

  /** Resolution replaces templates by values; `show` renders a value inside a longer text. */
  function Resolve(v: Value, scope: Value, show: Value -> string): Result<Value>
    decreases v, 1
  {
    match v
    case Str(s) => ResolveText(s, scope, show)
    case List(items) => var r :- ResolveAll(items, scope, show); Ok(List(r))
    case Object(fields) => var r :- ResolveFields(fields, scope, show); Ok(Object(r))
    case _ => Ok(v)
  }

  function ResolveAll(items: seq<Value>, scope: Value, show: Value -> string): Result<seq<Value>>
    decreases items, 0
  {
    if items == [] then Ok([]) else
      var first :- Resolve(items[0], scope, show);
      var rest :- ResolveAll(items[1..], scope, show);
      Ok([first] + rest)
  }

  function ResolveFields(fields: seq<Field>, scope: Value, show: Value -> string): Result<seq<Field>>
    decreases fields, 0
  {
    if fields == [] then Ok([]) else
      var first :- Resolve(fields[0].value, scope, show);
      var rest :- ResolveFields(fields[1..], scope, show);
      Ok([Field(fields[0].key, first)] + rest)
  }

  function ResolveText(s: string, scope: Value, show: Value -> string): Result<Value> {
    var whole := TemplateAt(s, 0);
    if whole.Some? && |whole.value| + 3 == |s| then Lookup(scope, whole.value)
    else var text :- Substitute(s, 0, scope, show); Ok(Str(text))
  }

  function Substitute(s: string, i: nat, scope: Value, show: Value -> string): Result<string>
    requires i <= |s|
    decreases |s| - i
  {
    if i == |s| then Ok("")
    else match TemplateAt(s, i)
      case Some(e) =>
        var v :- Lookup(scope, e);
        var rest :- Substitute(s, i + 3 + |e|, scope, show);
        Ok(show(v) + rest)
      case None =>
        var rest :- Substitute(s, i + 1, scope, show);
        Ok([s[i]] + rest)
  }

  // ---- Schedule independence ----

  /** Recorded outputs carry node identifiers. */
  ghost predicate IdKeys(outputs: seq<Field>) {
    forall i :: 0 <= i < |outputs| ==> IdShaped(outputs[i].key)
  }

  ghost predicate AgreeOn(a: seq<Field>, b: seq<Field>, names: set<string>) {
    forall x :: x in names ==> Find(a, x) == Find(b, x)
  }

  lemma {:induction false} FindKey(outputs: seq<Field>, key: string)
    requires IdKeys(outputs) && Find(outputs, key).Some?
    ensures IdShaped(key)
  {
    if outputs[0].key != key {
      assert forall i :: 0 <= i < |outputs| - 1 ==> outputs[1..][i] == outputs[i + 1];
      FindKey(outputs[1..], key);
    }
  }

  lemma ScopePath(input: Value, outputs: seq<Field>, parts: seq<string>)
    requires |parts| >= 2 && parts[0] == "nodes"
    ensures LookupPath(Scope(input, outputs), parts) ==
      match Find(outputs, parts[1])
      case None => None
      case Some(v) => LookupPath(Object([Field("output", v)]), parts[2..])
  {
    var scope := Scope(input, outputs);
    assert Find(scope.fields[1..], "nodes") == Some(Object(Wrapped(outputs)));
    assert Find(scope.fields, "nodes") == Some(Object(Wrapped(outputs)));
    FindWrapped(outputs, parts[1]);
    assert parts[1..][0] == parts[1] && parts[1..][1..] == parts[2..];
  }

  lemma ScopeElsewhere(input: Value, a: seq<Field>, b: seq<Field>, parts: seq<string>)
    requires parts != [] && parts[0] != "nodes"
    ensures LookupPath(Scope(input, a), parts) == LookupPath(Scope(input, b), parts)
  {
    var sa, sb := Scope(input, a), Scope(input, b);
    assert Find(sa.fields[1..], parts[0]) == None == Find(sb.fields[1..], parts[0]) by {
      assert sa.fields[1..][1..] == [] == sb.fields[1..][1..];
    }
    assert Find(sa.fields, parts[0]) == Find(sb.fields, parts[0]);
  }

  /** `nodes` alone, and a path that can find something below an unknown node, are the unstable ones. */
  predicate LooksOnlyAt(expression: string, known: set<string>) {
    var parts := Split(expression, '.');
    parts[0] == "nodes" ==>
      && |parts| >= 2
      && (IdShaped(parts[1]) && (|parts| == 2 || parts[2] == "output") ==> parts[1] in known)
  }

  /** Below a node only `output` is found. */
  lemma BelowNode(v: Value, parts: seq<string>)
    ensures LookupPath(Object([Field("output", v)]), parts) ==
      if parts == [] then Some(Object([Field("output", v)]))
      else if parts[0] == "output" then LookupPath(v, parts[1..]) else None
  {
    if parts != [] {
      var fields := [Field("output", v)];
      assert fields[1..] == [];
      assert Find(fields, parts[0]) == if parts[0] == "output" then Some(v) else None;
    }
  }

  lemma LooksStable(input: Value, a: seq<Field>, b: seq<Field>, expression: string, known: set<string>)
    requires IdKeys(a) && IdKeys(b) && AgreeOn(a, b, known) && LooksOnlyAt(expression, known)
    ensures Lookup(Scope(input, a), expression) == Lookup(Scope(input, b), expression)
  {
    var parts := Split(expression, '.');
    if parts[0] != "nodes" {
      ScopeElsewhere(input, a, b, parts);
    } else {
      var x := parts[1];
      ScopePath(input, a, parts);
      ScopePath(input, b, parts);
      if Find(a, x).Some? { FindKey(a, x); BelowNode(Find(a, x).value, parts[2..]); }
      if Find(b, x).Some? { FindKey(b, x); BelowNode(Find(b, x).value, parts[2..]); }
    }
  }

  ghost predicate TextStable(s: string, known: set<string>) {
    forall i {:trigger TemplateAt(s, i)} :: 0 <= i < |s| && TemplateAt(s, i).Some? ==> LooksOnlyAt(TemplateAt(s, i).value, known)
  }

  /** No template in the value looks at a node outside `known`. */
  ghost predicate AllStable(v: Value, known: set<string>)
    decreases v
  {
    match v
    case Str(s) => TextStable(s, known)
    case List(items) => forall i :: 0 <= i < |items| ==> AllStable(items[i], known)
    case Object(fields) => forall i :: 0 <= i < |fields| ==> AllStable(fields[i].value, known)
    case _ => true
  }

  lemma {:induction false} SubstituteAgrees(s: string, i: nat, known: set<string>, input: Value, a: seq<Field>, b: seq<Field>, show: Value -> string)
    requires i <= |s| && TextStable(s, known)
    requires IdKeys(a) && IdKeys(b) && AgreeOn(a, b, known)
    ensures Substitute(s, i, Scope(input, a), show) == Substitute(s, i, Scope(input, b), show)
    decreases |s| - i
  {
    hide LooksOnlyAt, AgreeOn, IdKeys, Scope, Lookup, TemplateAt;
    if i < |s| {
      match TemplateAt(s, i) {
        case Some(e) =>
          LooksStable(input, a, b, e, known);
          SubstituteAgrees(s, i + 3 + |e|, known, input, a, b, show);
        case None =>
          SubstituteAgrees(s, i + 1, known, input, a, b, show);
      }
    }
  }

  /**
   * Resolution, errors included, depends only on the outputs of the nodes its templates look at, whatever else was
   * recorded and in whatever order.
   */
  lemma {:induction false} ResolveAgrees(v: Value, known: set<string>, input: Value, a: seq<Field>, b: seq<Field>, show: Value -> string)
    requires AllStable(v, known) && IdKeys(a) && IdKeys(b) && AgreeOn(a, b, known)
    ensures Resolve(v, Scope(input, a), show) == Resolve(v, Scope(input, b), show)
    decreases v, 1
  {
    hide LooksOnlyAt, AgreeOn, IdKeys, Scope, Lookup;
    match v {
      case Str(s) =>
        if s != "" && TemplateAt(s, 0).Some? { LooksStable(input, a, b, TemplateAt(s, 0).value, known); }
        SubstituteAgrees(s, 0, known, input, a, b, show);
      case List(items) => ResolveAllAgrees(items, known, input, a, b, show);
      case Object(fields) => ResolveFieldsAgrees(fields, known, input, a, b, show);
      case _ =>
    }
  }

  lemma {:induction false} ResolveAllAgrees(items: seq<Value>, known: set<string>, input: Value, a: seq<Field>, b: seq<Field>, show: Value -> string)
    requires forall i :: 0 <= i < |items| ==> AllStable(items[i], known)
    requires IdKeys(a) && IdKeys(b) && AgreeOn(a, b, known)
    ensures ResolveAll(items, Scope(input, a), show) == ResolveAll(items, Scope(input, b), show)
    decreases items, 0
  {
    hide AllStable, AgreeOn, IdKeys, Scope;
    if items != [] {
      ResolveAgrees(items[0], known, input, a, b, show);
      ResolveAllAgrees(items[1..], known, input, a, b, show);
    }
  }

  lemma {:induction false} ResolveFieldsAgrees(fields: seq<Field>, known: set<string>, input: Value, a: seq<Field>, b: seq<Field>, show: Value -> string)
    requires forall i :: 0 <= i < |fields| ==> AllStable(fields[i].value, known)
    requires IdKeys(a) && IdKeys(b) && AgreeOn(a, b, known)
    ensures ResolveFields(fields, Scope(input, a), show) == ResolveFields(fields, Scope(input, b), show)
    decreases fields, 0
  {
    hide AllStable, AgreeOn, IdKeys, Scope;
    if fields != [] {
      ResolveAgrees(fields[0].value, known, input, a, b, show);
      ResolveFieldsAgrees(fields[1..], known, input, a, b, show);
    }
  }

  // ---- What the reference check sees ----

  /** The reference check looks only at `nodes.X.` with a trailing dot: `nodes` and `nodes.X` alone escape it. */
  predicate Checked(expression: string) {
    var parts := Split(expression, '.');
    parts[0] == "nodes" ==> |parts| >= 3
  }

  /** The two shapes that escape it: `nodes`, and `nodes.` with a name behind which nothing follows. */
  lemma CheckedExactly(e: string)
    ensures !Checked(e) <==> e == "nodes" || (|e| >= 6 && e[..6] == "nodes." && '.' !in e[6..])
  {
    var parts := Split(e, '.');
    if e == "nodes" { SplitPiece("nodes", '.'); }
    if |e| >= 6 && e[..6] == "nodes." && '.' !in e[6..] {
      assert e == "nodes" + ['.'] + e[6..];
      SplitCons("nodes", e[6..], '.');
      SplitPiece(e[6..], '.');
    }
    if !Checked(e) {
      assert Join(parts, '.') == e;
      if |parts| == 2 {
        assert Join(parts[1..], '.') == parts[1];
        assert e == "nodes." + parts[1];
      }
    }
  }

  ghost predicate TextChecked(s: string) {
    forall i {:trigger TemplateAt(s, i)} :: 0 <= i < |s| && TemplateAt(s, i).Some? ==> Checked(TemplateAt(s, i).value)
  }

  ghost predicate AllChecked(v: Value)
    decreases v
  {
    match v
    case Str(s) => TextChecked(s)
    case List(items) => forall i :: 0 <= i < |items| ==> AllChecked(items[i])
    case Object(fields) => forall i :: 0 <= i < |fields| ==> AllChecked(fields[i].value)
    case _ => true
  }

  lemma RunIs(s: string, i: nat, x: string, accept: char -> bool)
    requires i + |x| < |s| && s[i..i + |x|] == x
    requires forall k :: 0 <= k < |x| ==> accept(x[k])
    requires !accept(s[i + |x|])
    ensures RunEnd(s, i, accept) == i + |x|
  {
    forall k | i <= k < i + |x| ensures accept(s[k]) { assert s[k] == s[i..i + |x|][k - i]; }
  }

  /** A template that looks below a node is seen by the reference check. */
  lemma TemplateIsReference(s: string, i: nat, expression: string)
    requires TemplateAt(s, i) == Some(expression)
    requires
      var parts := Split(expression, '.');
      |parts| >= 3 && parts[0] == "nodes" && IdShaped(parts[1])
    ensures ReferenceAt(s, i) == Some(Split(expression, '.')[1])
  {
    var parts := Split(expression, '.');
    JoinThree(parts, '.');
    NodesPath(s, i, parts[1], Join(parts[2..], '.'));
    RunIs(s, i + 8, parts[1], IdChar);
  }

  lemma JoinThree(parts: seq<string>, c: char)
    requires |parts| >= 3
    ensures Join(parts, c) == parts[0] + [c] + (parts[1] + [c] + Join(parts[2..], c))
  {
  }

  lemma NodesPath(s: string, i: nat, x: string, more: string)
    requires TemplateAt(s, i) == Some("nodes" + "." + (x + "." + more))
    ensures StartsAt(s, i, REFERENCE) && i + 8 + |x| < |s|
    ensures s[i + 8..i + 8 + |x|] == x && s[i + 8 + |x|] == '.'
  {
    var e := TemplateAt(s, i).value;
    assert s[i + 2..i + 2 + |e|] == e;
    assert s[i + 2..i + 8] == e[..6] == "nodes.";
    assert s[i..i + 2] == "${";
    assert s[i..i + 8] == s[i..i + 2] + s[i + 2..i + 8];
    assert e[6..6 + |x|] == x;
    assert s[i + 2..i + 2 + |e|][6..6 + |x|] == s[i + 8..i + 8 + |x|];
    assert s[i + 8 + |x|] == e[6 + |x|];
  }

  /** What the reference check accepts and the template shape it looks for together give independence. */
  lemma AcceptedIsStable(s: string, i: nat, known: set<string>)
    requires i < |s| && TemplateAt(s, i).Some? && ScanReferences(s, 0) <= known
    requires Checked(TemplateAt(s, i).value)
    ensures LooksOnlyAt(TemplateAt(s, i).value, known)
  {
    var e := TemplateAt(s, i).value;
    var parts := Split(e, '.');
    if |parts| >= 3 && parts[0] == "nodes" && IdShaped(parts[1]) {
      TemplateIsReference(s, i, e);
      ScanFindsAll(s, 0, parts[1]);
    }
  }

  /** A value with checked templates whose references are all known looks only at known nodes. */
  lemma {:induction false} CheckedIsStable(v: Value, known: set<string>)
    requires AllChecked(v) && References(v) <= known
    ensures AllStable(v, known)
    decreases v, 1
  {
    hide Checked, LooksOnlyAt;
    match v {
      case Str(s) =>
        forall i | 0 <= i < |s| && TemplateAt(s, i).Some? ensures LooksOnlyAt(TemplateAt(s, i).value, known) {
          AcceptedIsStable(s, i, known);
        }
      case List(items) => AllCheckedAreStable(items, known);
      case Object(fields) => FieldsCheckedAreStable(fields, known);
      case _ =>
    }
  }

  lemma {:induction false} AllCheckedAreStable(items: seq<Value>, known: set<string>)
    requires (forall i :: 0 <= i < |items| ==> AllChecked(items[i])) && ReferencesInAll(items) <= known
    ensures forall i :: 0 <= i < |items| ==> AllStable(items[i], known)
    decreases items, 0
  {
    hide AllChecked, AllStable, References;
    if items != [] {
      CheckedIsStable(items[0], known);
      AllCheckedAreStable(items[1..], known);
      assert forall i :: 1 <= i < |items| ==> items[i] == items[1..][i - 1];
    }
  }

  lemma {:induction false} FieldsCheckedAreStable(fields: seq<Field>, known: set<string>)
    requires (forall i :: 0 <= i < |fields| ==> AllChecked(fields[i].value)) && ReferencesInFields(fields) <= known
    ensures forall i :: 0 <= i < |fields| ==> AllStable(fields[i].value, known)
    decreases fields, 0
  {
    hide AllChecked, AllStable, References;
    if fields != [] {
      CheckedIsStable(fields[0].value, known);
      FieldsCheckedAreStable(fields[1..], known);
      assert forall i :: 1 <= i < |fields| ==> fields[i] == fields[1..][i - 1];
    }
  }

  // ---- Exactly which expressions are independent of unchecked nodes ----

  /** Outputs of nodes outside `known` never change what the expression finds. */
  ghost predicate Stable(expression: string, known: set<string>) {
    forall input, a, b :: IdKeys(a) && IdKeys(b) && AgreeOn(a, b, known) ==>
      Lookup(Scope(input, a), expression) == Lookup(Scope(input, b), expression)
  }

  /** A value in which the path is found. */
  function Nest(path: seq<string>): Value {
    if path == [] then Null else Object([Field(path[0], Nest(path[1..]))])
  }

  lemma {:induction false} NestHasPath(path: seq<string>)
    ensures LookupPath(Nest(path), path) == Some(Null)
  {
    if path != [] { NestHasPath(path[1..]); }
  }

  lemma NodesAlone(input: Value, outputs: seq<Field>)
    ensures LookupPath(Scope(input, outputs), ["nodes"]) == Some(Object(Wrapped(outputs)))
  {
    var scope := Scope(input, outputs);
    assert Find(scope.fields[1..], "nodes") == Some(Object(Wrapped(outputs)));
    assert Find(scope.fields, "nodes") == Some(Object(Wrapped(outputs)));
  }

  /** A lookup is independent of nodes outside `known` if and only if it looks only at known ones. */
  lemma StableExactly(expression: string, known: set<string>, other: string)
    requires IdShaped(other) && other !in known
    ensures Stable(expression, known) <==> LooksOnlyAt(expression, known)
  {
    if LooksOnlyAt(expression, known) {
      forall input, a, b | IdKeys(a) && IdKeys(b) && AgreeOn(a, b, known)
        ensures Lookup(Scope(input, a), expression) == Lookup(Scope(input, b), expression)
      {
        LooksStable(input, a, b, expression, known);
      }
    } else {
      var x, v := Unstable(expression, known, other);
      assert IdKeys([Field(x, v)]) && IdKeys([]) && AgreeOn([Field(x, v)], [], known);
      assert Lookup(Scope(Null, [Field(x, v)]), expression) != Lookup(Scope(Null, []), expression);
    }
  }

  lemma Unstable(expression: string, known: set<string>, other: string) returns (x: string, v: Value)
    requires IdShaped(other) && other !in known && !LooksOnlyAt(expression, known)
    ensures IdShaped(x) && x !in known
    ensures Lookup(Scope(Null, [Field(x, v)]), expression) != Lookup(Scope(Null, []), expression)
  {
    var parts := Split(expression, '.');
    if |parts| == 1 {
      x, v := other, Null;
      assert parts == ["nodes"];
      NodesAlone(Null, [Field(x, v)]);
      NodesAlone(Null, []);
    } else {
      x := parts[1];
      v := if |parts| == 2 then Null else Nest(parts[3..]);
      ScopePath(Null, [Field(x, v)], parts);
      ScopePath(Null, [], parts);
      BelowNode(v, parts[2..]);
      if |parts| > 2 {
        assert parts[2..][1..] == parts[3..];
        NestHasPath(parts[3..]);
      }
    }
  }

  /** A bare `${nodes.x}` passes the reference check, and what it finds depends on a node nothing was declared about. */
  lemma BareReferenceEscapes(x: string, known: set<string>)
    requires IdShaped(x) && x !in known
    ensures
      var s := "${nodes." + x + "}";
      && References(Str(s)) == {}
      && TemplateAt(s, 0) == Some("nodes." + x)
      && !Stable("nodes." + x, known)
  {
    hide Stable, ScanReferences, TemplateAt, LooksOnlyAt;
    var s := "${nodes." + x + "}";
    BareTemplate(x);
    BareLooksElsewhere(x, known);
    StableExactly("nodes." + x, known, x);
    forall y ensures y !in ScanReferences(s, 0) {
      ScanFindsAll(s, 0, y);
      forall k | 0 <= k < |s| ensures ReferenceAt(s, k).None? { NoReferenceIn(x, k); }
    }
  }

  lemma BareParts(x: string)
    requires IdShaped(x)
    ensures Split("nodes." + x, '.') == ["nodes", x]
  {
    hide Split, Join;
    assert '.' !in x by { assert !IdChar('.'); }
    SplitCons("nodes", x, '.');
    SplitPiece(x, '.');
    assert "nodes" + ['.'] + x == "nodes." + x;
  }

  lemma BareLooksElsewhere(x: string, known: set<string>)
    requires IdShaped(x) && x !in known
    ensures !LooksOnlyAt("nodes." + x, known)
  {
    BareParts(x);
  }

  /** Before node x is recorded a bare reference to it is an error, afterwards it is what was recorded. */
  lemma BareResolves(x: string, input: Value, v: Value, show: Value -> string)
    requires IdShaped(x)
    ensures
      var text := Str("${nodes." + x + "}");
      && Resolve(text, Scope(input, []), show).Err?
      && Resolve(text, Scope(input, [Field(x, v)]), show) == Ok(Object([Field("output", v)]))
  {
    hide Scope, Split;
    var parts := ["nodes", x];
    BareTemplate(x);
    BareParts(x);
    ScopePath(input, [], parts);
    ScopePath(input, [Field(x, v)], parts);
    assert parts[2..] == [];
  }

  lemma BareTemplate(x: string)
    requires IdShaped(x)
    ensures TemplateAt("${nodes." + x + "}", 0) == Some("nodes." + x)
  {
    var s, e := "${nodes." + x + "}", "nodes." + x;
    assert s[2..2 + |e|] == e && s[0..2] == "${" && s[2 + |e|] == '}';
    forall k | 0 <= k < |e| ensures NoBrace(e[k]) { if k >= 6 { assert e[k] == x[k - 6]; } }
    RunIs(s, 2, e, NoBrace);
  }

  lemma NoReferenceIn(x: string, k: nat)
    requires IdShaped(x)
    ensures ReferenceAt("${nodes." + x + "}", k).None?
  {
  }
}
