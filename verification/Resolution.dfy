/** What templates resolve to, read off the text they stand in. */
module Resolution {
  import opened Common
  import opened Text
  import opened Templates

  predicate IsExpression(e: string) { e != "" && '{' !in e && '}' !in e }

  /** Three pieces stand one after the other exactly if each stands in its place. */
  lemma Pieces(s: string, i: nat, a: string, b: string, c: string)
    requires i + |a| + |b| + |c| <= |s|
    ensures s[i..i + |a| + |b| + |c|] == a + b + c <==>
      && s[i..i + |a|] == a && s[i + |a|..i + |a| + |b|] == b
      && s[i + |a| + |b|..i + |a| + |b| + |c|] == c
  {
    var t := s[i..i + |a| + |b| + |c|];
    assert t == s[i..i + |a|] + s[i + |a|..i + |a| + |b|] + s[i + |a| + |b|..i + |a| + |b| + |c|];
    if t == a + b + c {
      assert t[..|a|] == s[i..i + |a|] && t[|a|..|a| + |b|] == s[i + |a|..i + |a| + |b|];
      assert t[|a| + |b|..] == s[i + |a| + |b|..i + |a| + |b| + |c|];
      assert (a + b + c)[..|a|] == a && (a + b + c)[|a|..|a| + |b|] == b && (a + b + c)[|a| + |b|..] == c;
    }
  }

  /** A template stands at a position exactly if `${`, an expression and `}` do. */
  lemma TemplateExactly(s: string, i: nat, e: string)
    ensures TemplateAt(s, i) == Some(e) <==>
      IsExpression(e) && i + |e| + 3 <= |s| && s[i..i + |e| + 3] == "${" + e + "}"
  {
    if i + |e| + 3 <= |s| {
      Pieces(s, i, "${", e, "}");
      if TemplateAt(s, i) == Some(e) {
        forall k | 0 <= k < |e| ensures NoBrace(e[k]) { assert e[k] == s[i + 2 + k]; }
        assert s[i + 2 + |e|..i + 3 + |e|] == "}";
      } else if IsExpression(e) && s[i..i + |e| + 3] == "${" + e + "}" {
        assert s[i + 2 + |e|..i + 3 + |e|] == ['}'];
        assert s[i + 2 + |e|] == s[i + 2 + |e|..i + 3 + |e|][0];
        RunIs(s, i + 2, e, NoBrace);
      }
    }
  }

  predicate IsName(x: string) {
    x != "" && forall c :: c in x ==> 'A' <= c <= 'Z' || 'a' <= c <= 'z' || '0' <= c <= '9' || c == '_' || c == '-'
  }

  /** A reference stands at a position exactly if `${nodes.`, a name of letters, digits, `_` and `-`, and a dot do. */
  lemma ReferenceExactly(s: string, i: nat, x: string)
    ensures ReferenceAt(s, i) == Some(x) <==>
      IsName(x) && i + |x| + 9 <= |s| && s[i..i + |x| + 9] == "${nodes." + x + "."
  {
    if i + |x| + 9 <= |s| {
      Pieces(s, i, "${nodes.", x, ".");
      if ReferenceAt(s, i) == Some(x) {
        NameThere(s, i, x);
      } else if IsName(x) && s[i..i + |x| + 9] == "${nodes." + x + "." {
        assert s[i + 8 + |x|..i + 9 + |x|] == ['.'];
        assert s[i + 8 + |x|] == s[i + 8 + |x|..i + 9 + |x|][0];
        forall k | 0 <= k < |x| ensures IdChar(x[k]) { assert x[k] in x; }
        RunIs(s, i + 8, x, IdChar);
      }
    }
  }

  lemma NameThere(s: string, i: nat, x: string)
    requires ReferenceAt(s, i) == Some(x)
    ensures IsName(x) && s[i..i + 8] == "${nodes." && s[i + 8..i + 8 + |x|] == x && s[i + 8 + |x|..i + 9 + |x|] == "."
  {
    forall k | 0 <= k < |x| ensures IdChar(x[k]) { assert x[k] == s[i + 8 + k]; }
  }

  // ---- Texts ----

  /** A result with a text put before it. */
  function Behind(text: string, r: Result<string>): Result<string> {
    match r case Err(x) => Err(x) case Ok(rest) => Ok(text + rest)
  }

  lemma BehindTwice(a: string, b: string, r: Result<string>)
    ensures Behind(a, Behind(b, r)) == Behind(a + b, r)
  {
    if r.Ok? { assert a + (b + r.value) == a + b + r.value; }
  }

  lemma {:induction false} SubstitutePlain(s: string, i: nat, j: nat, scope: Value, show: Value -> string)
    requires i <= j <= |s| && forall k :: i <= k < j ==> TemplateAt(s, k).None?
    ensures Substitute(s, i, scope, show) == Behind(s[i..j], Substitute(s, j, scope, show))
    decreases j - i
  {
    hide TemplateAt, Behind;
    if i < j {
      SubstitutePlain(s, i + 1, j, scope, show);
      BehindTwice([s[i]], s[i + 1..j], Substitute(s, j, scope, show));
      assert s[i..j] == [s[i]] + s[i + 1..j];
      OneBehind(s, i, scope, show);
    } else {
      NothingBefore(Substitute(s, j, scope, show));
    }
  }

  lemma NothingBefore(r: Result<string>)
    ensures Behind("", r) == r
  {
    if r.Ok? { assert "" + r.value == r.value; }
  }

  lemma OneBehind(s: string, i: nat, scope: Value, show: Value -> string)
    requires i < |s| && TemplateAt(s, i).None?
    ensures Substitute(s, i, scope, show) == Behind([s[i]], Substitute(s, i + 1, scope, show))
  {
    hide TemplateAt;
  }

  /** A template lies within a text whatever stands before it. */
  lemma TemplateShift(p: string, b: string, j: nat)
    ensures TemplateAt(p + b, |p| + j) == TemplateAt(b, j)
  {
    forall e ensures TemplateAt(p + b, |p| + j) == Some(e) <==> TemplateAt(b, j) == Some(e) {
      TemplateExactly(p + b, |p| + j, e);
      TemplateExactly(b, j, e);
      if j + |e| + 3 <= |b| { assert (p + b)[|p| + j..|p| + j + |e| + 3] == b[j..j + |e| + 3]; }
    }
    match TemplateAt(b, j) case Some(e) => case None =>
  }

  lemma {:induction false} SubstituteShift(p: string, b: string, j: nat, scope: Value, show: Value -> string)
    requires j <= |b|
    ensures Substitute(p + b, |p| + j, scope, show) == Substitute(b, j, scope, show)
    decreases |b| - j
  {
    hide TemplateAt, Lookup;
    TemplateShift(p, b, j);
    if j < |b| {
      assert (p + b)[|p| + j] == b[j];
      match TemplateAt(b, j) {
        case Some(e) => SubstituteShift(p, b, j + 3 + |e|, scope, show);
        case None => SubstituteShift(p, b, j + 1, scope, show);
      }
    }
  }

  /** A text without templates resolves to itself. */
  lemma PlainResolves(s: string, scope: Value, show: Value -> string)
    requires forall i :: 0 <= i < |s| ==> TemplateAt(s, i).None?
    ensures Resolve(Str(s), scope, show) == Ok(Str(s))
  {
    hide Lookup;
    if s != "" { assert TemplateAt(s, 0).None?; }
    SubstitutePlain(s, 0, |s|, scope, show);
    assert s[0..|s|] + "" == s;
  }

  /** A text that is one template resolves to the value found, whatever its type. */
  lemma WholeResolves(e: string, scope: Value, show: Value -> string)
    requires IsExpression(e)
    ensures Resolve(Str("${" + e + "}"), scope, show) == Lookup(scope, e)
  {
    var s := "${" + e + "}";
    assert s[0..0 + |e| + 3] == s;
    TemplateExactly(s, 0, e);
  }

  /** What a text contributes to a longer one: a template on its own is rendered there. */
  ghost function Inlined(b: string, scope: Value, show: Value -> string): Result<string> {
    match Resolve(Str(b), scope, show)
    case Err(x) => Err(x)
    case Ok(v) => Ok(if (exists e :: IsExpression(e) && b == "${" + e + "}") then show(v) else if v.Str? then v.s else "")
  }

  lemma WholeText(b: string)
    ensures b[0..|b|] == b
  {
  }

  lemma InlinedIs(b: string, scope: Value, show: Value -> string)
    ensures Inlined(b, scope, show) == Substitute(b, 0, scope, show)
  {
    hide Lookup, TemplateAt;
    if exists e :: IsExpression(e) && b == "${" + e + "}" {
      var e :| IsExpression(e) && b == "${" + e + "}";
      assert b[0..0 + |e| + 3] == b;
      TemplateExactly(b, 0, e);
      assert Substitute(b, |b|, scope, show) == Ok("");
      forall v ensures show(v) + "" == show(v) {}
    } else if TemplateAt(b, 0).Some? && |TemplateAt(b, 0).value| + 3 == |b| {
      TemplateExactly(b, 0, TemplateAt(b, 0).value);
      WholeText(b);
    }
  }

  lemma TemplateFirst(s: string, i: nat, e: string, scope: Value, show: Value -> string)
    requires i < |s| && TemplateAt(s, i) == Some(e)
    ensures Substitute(s, i, scope, show) ==
      match Lookup(scope, e) case Err(x) => Err(x) case Ok(v) => Behind(show(v), Substitute(s, i + 3 + |e|, scope, show))
  {
    hide TemplateAt, Lookup;
  }

  lemma PartOnly(s: string, scope: Value, show: Value -> string)
    requires TemplateAt(s, 0).Some? ==> |TemplateAt(s, 0).value| + 3 < |s|
    ensures Resolve(Str(s), scope, show) == match Substitute(s, 0, scope, show) case Err(x) => Err(x) case Ok(t) => Ok(Str(t))
  {
    hide TemplateAt, Substitute;
  }

  lemma NotWhole(a: string, e: string, b: string)
    requires IsExpression(e) && a + b != ""
    requires forall i :: 0 <= i < |a| ==> TemplateAt(a + ("${" + e + "}" + b), i).None?
    ensures
      var s := a + ("${" + e + "}" + b);
      TemplateAt(s, |a|) == Some(e) && (TemplateAt(s, 0).Some? ==> |TemplateAt(s, 0).value| + 3 < |s|)
  {
    hide TemplateAt;
    var s := a + ("${" + e + "}" + b);
    assert s[|a|..|a| + |e| + 3] == "${" + e + "}";
    TemplateExactly(s, |a|, e);
  }

  /**
   * A text with a template that is not all of it: the text before its first template, the value found rendered, and what
   * stands behind resolved likewise; the first missing value is the error.
   */
  lemma SplicedResolves(a: string, e: string, b: string, scope: Value, show: Value -> string)
    requires IsExpression(e) && a + b != ""
    requires forall i :: 0 <= i < |a| ==> TemplateAt(a + ("${" + e + "}" + b), i).None?
    ensures Resolve(Str(a + ("${" + e + "}" + b)), scope, show) ==
      match Lookup(scope, e)
      case Err(x) => Err(x)
      case Ok(v) => match Inlined(b, scope, show)
        case Err(x) => Err(x)
        case Ok(rest) => Ok(Str(a + show(v) + rest))
  {
    hide Lookup, TemplateAt, Inlined, Substitute, Resolve;
    var t := "${" + e + "}";
    var s := a + (t + b);
    NotWhole(a, e, b);
    SubstitutePlain(s, 0, |a|, scope, show);
    assert s[0..|a|] == a && s == (a + t) + b && |a + t| == |a| + 3 + |e|;
    SubstituteShift(a + t, b, 0, scope, show);
    InlinedIs(b, scope, show);
    TemplateFirst(s, |a|, e, scope, show);
    if Lookup(scope, e).Ok? { BehindTwice(a, show(Lookup(scope, e).value), Substitute(b, 0, scope, show)); }
    PartOnly(s, scope, show);
  }

  /** Every text either has no template, or splits at its first one. */
  lemma FirstTemplate(s: string, k: nat) returns (a: string, e: string, b: string)
    requires k < |s| && TemplateAt(s, k).Some?
    ensures IsExpression(e) && s == a + ("${" + e + "}" + b)
    ensures forall i :: 0 <= i < |a| ==> TemplateAt(s, i).None?
  {
    hide TemplateAt;
    var i := 0;
    while TemplateAt(s, i).None?
      invariant i <= k && forall j :: 0 <= j < i ==> TemplateAt(s, j).None?
      decreases k - i
    {
      i := i + 1;
    }
    e := TemplateAt(s, i).value;
    TemplateExactly(s, i, e);
    a, b := s[..i], s[i + |e| + 3..];
    assert s == s[..i] + (s[i..i + |e| + 3] + s[i + |e| + 3..]);
  }

  // ---- Structures ----

  /** Item i is the first one with an error, and x is that error. */
  ghost predicate ErrsFirst(items: seq<Value>, scope: Value, show: Value -> string, i: int, x: string) {
    0 <= i < |items| && Resolve(items[i], scope, show) == Err(x) && forall j :: 0 <= j < i ==> Resolve(items[j], scope, show).Ok?
  }

  lemma ErrsLater(items: seq<Value>, scope: Value, show: Value -> string, i: int, x: string)
    requires items != [] && Resolve(items[0], scope, show).Ok? && ErrsFirst(items[1..], scope, show, i, x)
    ensures ErrsFirst(items, scope, show, i + 1, x)
  {
    hide Resolve;
    forall j | 1 <= j < i + 1 ensures Resolve(items[j], scope, show).Ok? { assert items[1..][j - 1] == items[j]; }
  }

  /** A list resolves to the values of its items, or to the error of the first one that has any. */
  lemma ListResolves(items: seq<Value>, scope: Value, show: Value -> string) returns (first: int)
    ensures
      var r := Resolve(List(items), scope, show);
      && (r.Ok? ==>
            && r.value.List? && |r.value.items| == |items|
            && forall i :: 0 <= i < |items| ==> Resolve(items[i], scope, show) == Ok(r.value.items[i]))
      && (r.Err? ==> ErrsFirst(items, scope, show, first, r.error))
  {
    hide ErrsFirst;
    first := AllResolve(items, scope, show);
  }

  lemma {:induction false} AllResolve(items: seq<Value>, scope: Value, show: Value -> string) returns (first: int)
    ensures
      var r := ResolveAll(items, scope, show);
      && (r.Ok? ==> |r.value| == |items| && forall i :: 0 <= i < |items| ==> Resolve(items[i], scope, show) == Ok(r.value[i]))
      && (r.Err? ==> ErrsFirst(items, scope, show, first, r.error))
  {
    hide Resolve;
    first := 0;
    if items != [] && Resolve(items[0], scope, show).Ok? {
      var rest := AllResolve(items[1..], scope, show);
      forall i | 1 <= i < |items| ensures items[i] == items[1..][i - 1] {}
      var others := ResolveAll(items[1..], scope, show);
      if others.Err? {
        ErrsLater(items, scope, show, rest, others.error);
        first := rest + 1;
      }
    }
  }

  /** Field i is the first one with an error, and x is that error. */
  ghost predicate FieldErrsFirst(fields: seq<Field>, scope: Value, show: Value -> string, i: int, x: string) {
    && 0 <= i < |fields| && Resolve(fields[i].value, scope, show) == Err(x)
    && forall j :: 0 <= j < i ==> Resolve(fields[j].value, scope, show).Ok?
  }

  lemma FieldErrsLater(fields: seq<Field>, scope: Value, show: Value -> string, i: int, x: string)
    requires fields != [] && Resolve(fields[0].value, scope, show).Ok? && FieldErrsFirst(fields[1..], scope, show, i, x)
    ensures FieldErrsFirst(fields, scope, show, i + 1, x)
  {
    hide Resolve;
    forall j | 1 <= j < i + 1 ensures Resolve(fields[j].value, scope, show).Ok? { assert fields[1..][j - 1] == fields[j]; }
  }

  /** An object keeps its keys and resolves to the values of its fields, or to the error of the first one that has any. */
  lemma ObjectResolves(fields: seq<Field>, scope: Value, show: Value -> string) returns (first: int)
    ensures
      var r := Resolve(Object(fields), scope, show);
      && (r.Ok? ==>
            && r.value.Object? && |r.value.fields| == |fields|
            && forall i :: 0 <= i < |fields| ==>
                 r.value.fields[i].key == fields[i].key && Resolve(fields[i].value, scope, show) == Ok(r.value.fields[i].value))
      && (r.Err? ==> FieldErrsFirst(fields, scope, show, first, r.error))
  {
    hide FieldErrsFirst;
    first := FieldsResolve(fields, scope, show);
  }

  lemma {:induction false} FieldsResolve(fields: seq<Field>, scope: Value, show: Value -> string) returns (first: int)
    ensures
      var r := ResolveFields(fields, scope, show);
      && (r.Ok? ==>
            && |r.value| == |fields|
            && forall i :: 0 <= i < |fields| ==> r.value[i].key == fields[i].key && Resolve(fields[i].value, scope, show) == Ok(r.value[i].value))
      && (r.Err? ==> FieldErrsFirst(fields, scope, show, first, r.error))
  {
    hide Resolve;
    first := 0;
    if fields != [] && Resolve(fields[0].value, scope, show).Ok? {
      var rest := FieldsResolve(fields[1..], scope, show);
      forall i | 1 <= i < |fields| ensures fields[i] == fields[1..][i - 1] {}
      var others := ResolveFields(fields[1..], scope, show);
      if others.Err? {
        FieldErrsLater(fields, scope, show, rest, others.error);
        first := rest + 1;
      }
    }
  }

  // ---- Lookups ----

  /** A field is found exactly if it is the first with its key. */
  lemma {:induction false} FindsFirst(fields: seq<Field>, key: string, v: Value)
    ensures Find(fields, key) == Some(v) <==>
      exists i :: 0 <= i < |fields| && fields[i] == Field(key, v) && forall j :: 0 <= j < i ==> fields[j].key != key
  {
    if fields != [] {
      FindsFirst(fields[1..], key, v);
      forall i | 1 <= i < |fields| ensures fields[i] == fields[1..][i - 1] {}
      if fields[0].key == key {
        if Find(fields, key) == Some(v) { assert fields[0] == Field(key, v); }
      } else if Find(fields, key) == Some(v) {
        var i :| 0 <= i < |fields[1..]| && fields[1..][i] == Field(key, v) && forall j :: 0 <= j < i ==> fields[1..][j].key != key;
        assert fields[i + 1] == Field(key, v);
        forall j | 0 <= j < i + 1 ensures fields[j].key != key { if j > 0 { assert fields[j] == fields[1..][j - 1]; } }
      } else if i :| 0 <= i < |fields| && fields[i] == Field(key, v) && forall j :: 0 <= j < i ==> fields[j].key != key {
        assert fields[1..][i - 1] == Field(key, v);
        forall j | 0 <= j < i - 1 ensures fields[1..][j].key != key { assert fields[1..][j] == fields[j + 1]; }
      }
    }
  }

  /** Every value is the object in which the part leads to the next one. */
  ghost predicate Leads(values: seq<Value>, parts: seq<string>) {
    && |values| == |parts| + 1
    && forall i :: 0 <= i < |parts| ==> values[i].Object? && Find(values[i].fields, parts[i]) == Some(values[i + 1])
  }

  lemma {:induction false} PathLeads(v: Value, parts: seq<string>, w: Value)
    ensures LookupPath(v, parts) == Some(w) <==> exists values :: Leads(values, parts) && values[0] == v && values[|parts|] == w
    decreases |parts|
  {
    if parts == [] {
      assert Leads([v], parts);
    } else if LookupPath(v, parts) == Some(w) {
      var next := Find(v.fields, parts[0]).value;
      PathLeads(next, parts[1..], w);
      var rest :| Leads(rest, parts[1..]) && rest[0] == next && rest[|parts| - 1] == w;
      var values := [v] + rest;
      forall i | 0 <= i < |parts| ensures values[i].Object? && Find(values[i].fields, parts[i]) == Some(values[i + 1]) {
        if i > 0 { assert parts[i] == parts[1..][i - 1]; }
      }
      assert Leads(values, parts) && values[|parts|] == w;
    } else if values: seq<Value> :| Leads(values, parts) && values[0] == v && values[|parts|] == w {
      PathLeads(values[1], parts[1..], w);
      forall i | 0 <= i < |parts| - 1 ensures values[1..][i].Object? && Find(values[1..][i].fields, parts[1..][i]) == Some(values[1..][i + 1]) {
        assert values[i + 1].Object? && Find(values[i + 1].fields, parts[i + 1]) == Some(values[i + 2]);
      }
      assert Leads(values[1..], parts[1..]);
    }
  }

  /** An expression finds a value exactly if its dotted parts lead there from the scope; otherwise the error names it. */
  lemma LooksUp(scope: Value, parts: seq<string>, w: Value)
    requires parts != [] && forall i :: 0 <= i < |parts| ==> '.' !in parts[i]
    ensures Lookup(scope, Join(parts, '.')) == Ok(w) <==> exists values :: Leads(values, parts) && values[0] == scope && values[|parts|] == w
    ensures Lookup(scope, Join(parts, '.')).Err? ==>
      Lookup(scope, Join(parts, '.')).error == "workflow template value not found: " + Join(parts, '.')
  {
    hide Leads;
    SplitJoin(parts, '.');
    PathLeads(scope, parts, w);
  }

  lemma InputFound(input: Value, outputs: seq<Field>)
    ensures Find(Scope(input, outputs).fields, "input") == Some(input)
  {
  }

  lemma InputPart(scope: Value, input: Value, k: string)
    requires scope.Object? && Find(scope.fields, "input") == Some(input)
    ensures LookupPath(scope, ["input", k]) == if input.Object? then Find(input.fields, k) else None
  {
    assert ["input", k][1..] == [k] && [k][1..] == [];
    assert LookupPath(scope, ["input", k]) == LookupPath(input, [k]);
  }

  /** `input.k` finds field k of the workflow input. */
  lemma InputField(input: Value, outputs: seq<Field>, k: string)
    requires '.' !in k
    ensures Lookup(Scope(input, outputs), "input." + k) ==
      if input.Object? && Find(input.fields, k).Some? then Ok(Find(input.fields, k).value)
      else Err("workflow template value not found: input." + k)
  {
    hide Split, Join, Find;
    SplitCons("input", k, '.');
    SplitPiece(k, '.');
    assert "input" + ['.'] + k == "input." + k;
    assert Split("input." + k, '.') == ["input", k];
    InputFound(input, outputs);
    assert Find(Scope(input, outputs).fields, "input") == Some(input);
    InputPart(Scope(input, outputs), input, k);
  }

  /** `nodes.x.output.k` finds field k of what node x put out. */
  lemma OutputField(input: Value, outputs: seq<Field>, x: string, k: string)
    requires '.' !in x && '.' !in k
    ensures
      var expression := "nodes." + x + ".output." + k;
      Lookup(Scope(input, outputs), expression) ==
        match Find(outputs, x)
        case None => Err("workflow template value not found: " + expression)
        case Some(v) =>
          if v.Object? && Find(v.fields, k).Some? then Ok(Find(v.fields, k).value)
          else Err("workflow template value not found: " + expression)
  {
    hide Scope, Split;
    var parts := ["nodes", x, "output", k];
    var expression := "nodes." + x + ".output." + k;
    SplitPiece(k, '.');
    SplitCons("output", k, '.');
    SplitCons(x, "output" + ['.'] + k, '.');
    SplitCons("nodes", x + ['.'] + ("output" + ['.'] + k), '.');
    assert "nodes" + ['.'] + (x + ['.'] + ("output" + ['.'] + k)) == expression;
    assert Split(expression, '.') == parts;
    ScopePath(input, outputs, parts);
    assert parts[2..] == ["output", k];
    if Find(outputs, x).Some? {
      BelowNode(Find(outputs, x).value, ["output", k]);
      assert ["output", k][1..] == [k] && [k][1..] == [];
    }
  }
}
