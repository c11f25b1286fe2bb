/** The schema browser of the main tab: the query a tree node generates
    for its field (`SchemaTreeNode.generateQuery` and its helpers), the
    field filter, closing a schema tab and reading a tab's header table.
    Swing widgets, scanning, import and export are not part of this model. */
module MainTab {
  import opened Wrappers
  import opened Text
  import opened TypeKinds
  import opened TypeRefs
  import opened Arguments
  import opened Fields
  import opened GripTypes
  import opened Schemas

  function Min(a: nat, b: nat): nat { if a <= b then a else b }

  /** `getScalarPlaceholder`. */
  function ScalarPlaceholder(typeName: string): string {
    if typeName == "String" then "\"example\""
    else if typeName == "ID" then "\"1\""
    else if typeName == "Int" then "0"
    else if typeName == "Float" then "0.0"
    else if typeName == "Boolean" then "true"
    else "\"placeholder\""
  }

  /** Int, Float and Boolean get bare literals; every other name a quoted
      string, "example" only for String. No placeholder holds a brace. */
  lemma ScalarPlaceholderForms(typeName: string)
    ensures var r := ScalarPlaceholder(typeName);
      (r[0] == '"' <==> typeName !in {"Int", "Float", "Boolean"}) &&
      (r == "\"example\"" <==> typeName == "String") &&
      NoBrace(r)
  {
  }

  /** One `name: value` entry of an input-object placeholder. */
  function InputEntries(fs: seq<Field>): (r: seq<string>)
    requires forall f | f in fs :: f.typ.Some?
    ensures |r| == |fs|
    ensures forall i | 0 <= i < |fs| :: r[i] == fs[i].name + ": " + ScalarPlaceholder(fs[i].typ.value.name)
  {
    if fs == [] then []
    else InputEntries(fs[..|fs| - 1]) + [fs[|fs| - 1].name + ": " + ScalarPlaceholder(fs[|fs| - 1].typ.value.name)]
  }

  lemma InputEntriesSnoc(fs: seq<Field>, i: nat)
    requires i < |fs| && forall f | f in fs :: f.typ.Some?
    ensures var e := InputEntries(fs[..i + 1]);
      e == InputEntries(fs[..i]) + [fs[i].name + ": " + ScalarPlaceholder(fs[i].typ.value.name)] &&
      e[..i] == InputEntries(fs[..i])
  {
    assert fs[..i + 1][..i] == fs[..i];
  }

  /** `buildInputPlaceholder`: the first three fields at most. */
  function InputPlaceholder(t: GripType): string
    requires forall f | f in t.fields :: f.typ.Some?
  {
    "{ " + Join(InputEntries(t.fields[..Min(3, |t.fields|)]), ", ") + " }"
  }

  /** Fields after the third never show in an input placeholder. */
  lemma InputPlaceholderFirstThree(t: GripType, more: seq<Field>)
    requires forall f | f in t.fields + more :: f.typ.Some?
    requires |t.fields| >= 3
    ensures InputPlaceholder(t.(fields := t.fields + more)) == InputPlaceholder(t)
    ensures |InputEntries(t.fields[..Min(3, |t.fields|)])| == 3
  {
    assert (t.fields + more)[..3] == t.fields[..3];
  }

  /** `getPlaceholderValue` on a type's name and list flag; a missing name
      is read as String. */
  function PlaceholderValue(types: TypeMap, name: Option<string>, isList: bool): string
    requires FieldsTyped(types)
  {
    var n := name.GetOr("String");
    if isList then "[" + ScalarPlaceholder(n) + "]"
    else if n in types && (types[n].kind == INPUT_OBJECT || EndsWith(n, "Input")) then InputPlaceholder(types[n])
    else ScalarPlaceholder(n)
  }

  /** A list gets one scalar item in brackets; only a stored input type is
      expanded into an object, and a missing name acts as String. */
  lemma PlaceholderValueForms(types: TypeMap, name: Option<string>, isList: bool)
    requires FieldsTyped(types)
    ensures var n := name.GetOr("String");
      var r := PlaceholderValue(types, name, isList);
      (isList ==> r == "[" + ScalarPlaceholder(n) + "]") &&
      (n !in types ==> r == (if isList then "[" + ScalarPlaceholder(n) + "]" else ScalarPlaceholder(n))) &&
      (r[0] == '{' <==> !isList && n in types && (types[n].kind == INPUT_OBJECT || EndsWith(n, "Input")))
    ensures PlaceholderValue(types, None, isList) == PlaceholderValue(types, Some("String"), isList)
  {
    ScalarPlaceholderForms(name.GetOr("String"));
  }

  /** What `addReturnFields` has written after some of a type's fields:
      the text, the lines it counted and the fields it expanded. */
  datatype Acc = Acc(text: string, count: nat, nested: nat)

  /** Levels of nesting still allowed: expansion stops at depth 3. */
  function Budget(depth: nat): nat { if depth < 3 then 3 - depth else 0 }

  /** `addReturnFields(sb, ref, depth)`: the lines for the type named
      `typeName`, or a lone `__typename` line for an unknown type or a type
      with nothing to show. */
  function ReturnFields(types: TypeMap, typeName: string, depth: nat): string
    requires FieldsTyped(types)
    decreases Budget(depth), 1, 0
  {
    var indent := Repeat("  ", depth);
    if typeName !in types then indent + "__typename\n"
    else
      var a := FieldsWalk(types, types[typeName].fields, depth);
      if a.count == 0 then a.text + (indent + "__typename\n") else a.text
  }

  /** The loop of `addReturnFields` over the fields `fs`. */
  function FieldsWalk(types: TypeMap, fs: seq<Field>, depth: nat): (a: Acc)
    requires FieldsTyped(types) && forall f | f in fs :: f.typ.Some?
    ensures a.nested <= 3 && a.nested <= a.count <= |fs|
    ensures depth >= 3 ==> a.nested == 0
    ensures a.count == 0 ==> a.text == ""
    decreases Budget(depth), 0, |fs|
  {
    if fs == [] then Acc("", 0, 0)
    else FieldStep(types, fs[|fs| - 1], depth, FieldsWalk(types, fs[..|fs| - 1], depth))
  }

  /** One field: a leaf or unknown type gives a bare line; an object type
      is expanded while depth < 3 and fewer than three were expanded;
      otherwise the field is skipped. */
  function FieldStep(types: TypeMap, f: Field, depth: nat, a: Acc): (b: Acc)
    requires FieldsTyped(types) && f.typ.Some?
    ensures b.count == a.count ==> b == a
    ensures b.count == a.count || b.count == a.count + 1
    ensures b.nested == a.nested || (b.nested == a.nested + 1 && b.count == a.count + 1 && a.nested < 3 && depth < 3)
    decreases Budget(depth), 0, 0
  {
    var indent := Repeat("  ", depth);
    var sub := f.typ.value.name;
    if sub !in types || types[sub].kind == SCALAR || types[sub].kind == ENUM then
      Acc(a.text + (indent + f.name + "\n"), a.count + 1, a.nested)
    else if depth < 3 && a.nested < 3 then
      Acc(a.text + (indent + f.name + " {\n") + ReturnFields(types, sub, depth + 1) + (indent + "}\n"), a.count + 1, a.nested + 1)
    else a
  }

  lemma RegroupLine(s: string, t: string, l: string)
    ensures s + t + l == s + (t + l)
  {
  }

  lemma RegroupText(s: string, t: string, o: string, r: string, c: string)
    ensures s + t + o + r + c == s + (t + o + r + c)
  {
  }

  lemma FieldsWalkSnoc(types: TypeMap, fs: seq<Field>, i: nat, depth: nat)
    requires FieldsTyped(types) && forall f | f in fs :: f.typ.Some?
    requires i < |fs|
    ensures FieldsWalk(types, fs[..i + 1], depth) == FieldStep(types, fs[i], depth, FieldsWalk(types, fs[..i], depth))
  {
    assert fs[..i + 1][..i] == fs[..i];
  }

  /** A stored type whose walk shows no line, or an unknown type, gives
      exactly the `__typename` line. */
  lemma TypenameFallback(types: TypeMap, typeName: string, depth: nat)
    requires FieldsTyped(types)
    requires typeName !in types || FieldsWalk(types, types[typeName].fields, depth).count == 0
    ensures ReturnFields(types, typeName, depth) == Repeat("  ", depth) + "__typename\n"
  {
  }

  /** Every field name of every stored type is free of braces, as GraphQL names are. */
  predicate NamesBraceFree(types: TypeMap) {
    forall n, f | n in types && f in types[n].fields :: NoBrace(f.name)
  }

  /** The return-field lines open and close the same number of braces. */
  lemma {:induction false} ReturnFieldsBalanced(types: TypeMap, typeName: string, depth: nat)
    requires FieldsTyped(types) && NamesBraceFree(types)
    ensures Balanced(ReturnFields(types, typeName, depth))
    decreases Budget(depth), 1, 0
  {
    var indent := Repeat("  ", depth);
    IndentNoBrace(depth);
    LineCounts(indent, "", "__typename\n");
    assert indent + "" == indent;
    if typeName in types {
      var a := FieldsWalk(types, types[typeName].fields, depth);
      FieldsWalkBalanced(types, types[typeName].fields, depth);
      if a.count == 0 {
        BalancedAppend(a.text, indent + "__typename\n");
      }
    }
  }

  lemma {:induction false} FieldsWalkBalanced(types: TypeMap, fs: seq<Field>, depth: nat)
    requires FieldsTyped(types) && NamesBraceFree(types)
    requires forall f | f in fs :: f.typ.Some? && NoBrace(f.name)
    ensures Balanced(FieldsWalk(types, fs, depth).text)
    decreases Budget(depth), 0, |fs|
  {
    if fs == [] {
      assert FieldsWalk(types, fs, depth).text == "";
    } else {
      var a := FieldsWalk(types, fs[..|fs| - 1], depth);
      FieldsWalkBalanced(types, fs[..|fs| - 1], depth);
      var f := fs[|fs| - 1];
      var sub := f.typ.value.name;
      IndentNoBrace(depth);
      if sub !in types || types[sub].kind == SCALAR || types[sub].kind == ENUM {
        LeafLineBalanced(a.text, Repeat("  ", depth), f.name);
      } else if depth < 3 && a.nested < 3 {
        ReturnFieldsBalanced(types, sub, depth + 1);
        BlockLinesBalanced(a.text, Repeat("  ", depth), f.name, ReturnFields(types, sub, depth + 1));
      }
    }
  }

  /** A leaf field's line keeps the text balanced. */
  lemma LeafLineBalanced(prev: string, indent: string, name: string)
    requires Balanced(prev) && NoBrace(indent) && NoBrace(name)
    ensures Balanced(prev + (indent + name + "\n"))
  {
    LineCounts(indent, name, "\n");
    BalancedAppend(prev, indent + name + "\n");
  }

  /** An expanded field's block keeps the text balanced when its body is. */
  lemma BlockLinesBalanced(prev: string, indent: string, name: string, body: string)
    requires Balanced(prev) && NoBrace(indent) && NoBrace(name) && Balanced(body)
    ensures Balanced(prev + (indent + name + " {\n") + body + (indent + "}\n"))
  {
    LineCounts(indent, name, " {\n");
    LineCounts(indent, "", "}\n");
    assert indent + "" == indent;
    BalancedBlock(indent + name + " {\n", body, indent + "}\n");
    BalancedAppend(prev, indent + name + " {\n" + body + (indent + "}\n"));
    assert prev + (indent + name + " {\n") + body + (indent + "}\n")
      == prev + (indent + name + " {\n" + body + (indent + "}\n"));
  }

  /** The `name: value` texts of the arguments in a generated query. */
  function ArgumentValues(types: TypeMap, args: seq<Argument>): (r: seq<string>)
    requires FieldsTyped(types) && forall a | a in args :: a.typ.Some?
    ensures |r| == |args|
  {
    if args == [] then []
    else
      var a := args[|args| - 1];
      ArgumentValues(types, args[..|args| - 1]) + [a.name + ": " + PlaceholderValue(types, Some(a.typ.value.name), a.typ.value.isList)]
  }

  function ArgumentList(types: TypeMap, args: seq<Argument>): string
    requires FieldsTyped(types) && forall a | a in args :: a.typ.Some?
  {
    if args == [] then "" else "(" + Join(ArgumentValues(types, args), ", ") + ")"
  }

  /** The opening line of the field in a generated query: its name and
      argument list, then the brace of its selection. */
  function FieldCall(types: TypeMap, field: Field): string
    requires FieldsTyped(types) && forall a | a in field.arguments :: a.typ.Some?
  {
    "  " + field.name + ArgumentList(types, field.arguments) + " {\n"
  }

  /** `generateQuery`: the operation keyword, the field with its arguments
      and the return fields from depth 2. */
  function QueryText(types: TypeMap, field: Field, operationType: string): string
    requires FieldsTyped(types) && field.typ.Some? && forall a | a in field.arguments :: a.typ.Some?
  {
    ToLower(operationType) + " {\n"
      + (FieldCall(types, field) + ReturnFields(types, field.typ.value.name, 2) + "  }\n")
      + "}\n"
  }

  lemma {:induction false} JoinBalanced(parts: seq<string>, sep: string)
    requires forall i | 0 <= i < |parts| :: Balanced(parts[i])
    requires NoBrace(sep)
    ensures Balanced(Join(parts, sep))
    decreases |parts|
  {
    if |parts| == 1 {
    } else if |parts| > 1 {
      var init := parts[..|parts| - 1];
      JoinBalanced(init, sep);
      NoBraceBalanced(sep);
      BalancedAppend(Join(init, sep), sep);
      BalancedAppend(Join(init, sep) + sep, parts[|parts| - 1]);
    } else {
      assert Join(parts, sep) == [];
    }
  }

  /** Every argument placeholder is balanced: only an input object has
      braces, one pair around its entries. */
  lemma PlaceholderBalanced(types: TypeMap, name: Option<string>, isList: bool)
    requires FieldsTyped(types) && NamesBraceFree(types)
    ensures Balanced(PlaceholderValue(types, name, isList))
  {
    var n := name.GetOr("String");
    ScalarPlaceholderForms(n);
    if isList {
      NoBraceAppend("[", ScalarPlaceholder(n));
      NoBraceAppend("[" + ScalarPlaceholder(n), "]");
      NoBraceBalanced("[" + ScalarPlaceholder(n) + "]");
    } else if n in types && (types[n].kind == INPUT_OBJECT || EndsWith(n, "Input")) {
      InputPlaceholderBalanced(types[n]);
    } else {
      NoBraceBalanced(ScalarPlaceholder(n));
    }
  }

  /** An input-object placeholder holds one pair of braces around brace-free entries. */
  lemma InputPlaceholderBalanced(t: GripType)
    requires forall f | f in t.fields :: f.typ.Some? && NoBrace(f.name)
    ensures Balanced(InputPlaceholder(t))
  {
    var fs := t.fields;
    var entries := InputEntries(fs[..Min(3, |fs|)]);
    forall i | 0 <= i < |entries| ensures Balanced(entries[i]) {
      assert fs[i] in fs;
      EntryBalanced(fs[i]);
    }
    JoinBalanced(entries, ", ");
    BalancedBlock("{ ", Join(entries, ", "), " }");
  }

  /** One `name: value` entry of an input placeholder has no braces. */
  lemma EntryBalanced(f: Field)
    requires f.typ.Some? && NoBrace(f.name)
    ensures Balanced(f.name + ": " + ScalarPlaceholder(f.typ.value.name))
  {
    ScalarPlaceholderForms(f.typ.value.name);
    NoBraceAppend(f.name, ": ");
    NoBraceAppend(f.name + ": ", ScalarPlaceholder(f.typ.value.name));
    NoBraceBalanced(f.name + ": " + ScalarPlaceholder(f.typ.value.name));
  }

  /** With brace-free argument names, the argument list is balanced. */
  lemma ArgumentListBalanced(types: TypeMap, args: seq<Argument>)
    requires FieldsTyped(types) && NamesBraceFree(types)
    requires forall a | a in args :: a.typ.Some? && NoBrace(a.name)
    ensures Balanced(ArgumentList(types, args))
  {
    if args != [] {
      var values := ArgumentValues(types, args);
      forall i | 0 <= i < |args| ensures Balanced(values[i]) {
        ArgumentValueAt(types, args, i);
        var a := args[i];
        PlaceholderBalanced(types, Some(a.typ.value.name), a.typ.value.isList);
        NoBraceAppend(a.name, ": ");
        NoBraceBalanced(a.name + ": ");
        BalancedAppend(a.name + ": ", PlaceholderValue(types, Some(a.typ.value.name), a.typ.value.isList));
      }
      JoinBalanced(values, ", ");
      NoBraceBalanced("(");
      NoBraceBalanced(")");
      BalancedAppend("(", Join(values, ", "));
      BalancedAppend("(" + Join(values, ", "), ")");
    }
  }

  lemma {:induction false} ArgumentValueAt(types: TypeMap, args: seq<Argument>, i: nat)
    requires FieldsTyped(types) && forall a | a in args :: a.typ.Some?
    requires i < |args|
    ensures ArgumentValues(types, args)[i] ==
      args[i].name + ": " + PlaceholderValue(types, Some(args[i].typ.value.name), args[i].typ.value.isList)
    decreases |args|
  {
    if i < |args| - 1 {
      ArgumentValueAt(types, args[..|args| - 1], i);
    }
  }

  /** The generated query opens and closes as many braces as it has,
      whenever the names in it are free of braces. */
  lemma QueryBalanced(types: TypeMap, field: Field, operationType: string)
    requires FieldsTyped(types) && NamesBraceFree(types)
    requires field.typ.Some? && forall a | a in field.arguments :: a.typ.Some? && NoBrace(a.name)
    requires NoBrace(operationType) && NoBrace(field.name)
    ensures Balanced(QueryText(types, field, operationType))
  {
    var kw := ToLower(operationType);
    assert NoBrace(kw) by {
      forall i | 0 <= i < |kw| ensures kw[i] != '{' && kw[i] != '}' {
        assert kw[i] == LowerChar(operationType[i]);
      }
    }
    var args := ArgumentList(types, field.arguments);
    ArgumentListBalanced(types, field.arguments);
    NoBraceAppend("  ", field.name);
    NoBraceBalanced("  " + field.name);
    BalancedAppend("  " + field.name, args);
    OpeningLine("  " + field.name + args);
    var body := ReturnFields(types, field.typ.value.name, 2);
    ReturnFieldsBalanced(types, field.typ.value.name, 2);
    BalancedBlock(FieldCall(types, field), body, "  }\n");
    NoBraceBalanced(kw);
    OpeningLine(kw);
    BalancedBlock(kw + " {\n", FieldCall(types, field) + body + "  }\n", "}\n");
  }

  lemma OpeningLine(s: string)
    requires Balanced(s)
    ensures CountChar(s + " {\n", '{') == CountChar(s + " {\n", '}') + 1
  {
    CountCharAppend(s, " {\n", '{');
    CountCharAppend(s, " {\n", '}');
  }

  /** `matchesFilter`: the lower-cased field name, return-type name or an
      argument name contains the (already lower-cased) filter. */
  predicate Matches(f: Field, lowerFilter: string)
    requires f.typ.Some?
  {
    Contains(ToLower(f.name), lowerFilter) ||
    Contains(ToLower(f.typ.value.name), lowerFilter) ||
    exists i | 0 <= i < |f.arguments| :: Contains(ToLower(f.arguments[i].name), lowerFilter)
  }

  method MatchesFilter(f: Field, lowerFilter: string) returns (r: bool)
    requires f.typ.Some?
    ensures r <==> Matches(f, lowerFilter)
  {
    if Contains(ToLower(f.name), lowerFilter) {
      return true;
    }
    var typeName := f.typ.value.name;
    if Contains(ToLower(typeName), lowerFilter) {
      return true;
    }
    var i := 0;
    while i < |f.arguments|
      invariant 0 <= i <= |f.arguments|
      invariant forall j | 0 <= j < i :: !Contains(ToLower(f.arguments[j].name), lowerFilter)
    {
      if Contains(ToLower(f.arguments[i].name), lowerFilter) {
        return true;
      }
      i := i + 1;
    }
    return false;
  }

  lemma LowerUpper(c: char)
    ensures LowerChar(UpperChar(c)) == LowerChar(c)
  {
  }

  /** The filter ignores the case of the field name: upper-casing the
      name changes no match. */
  lemma MatchesIgnoresCase(f: Field, lowerFilter: string)
    requires f.typ.Some?
    ensures Matches(f.(name := ToUpper(f.name)), lowerFilter) == Matches(f, lowerFilter)
  {
    var u := ToUpper(f.name);
    forall i | 0 <= i < |u| ensures ToLower(u)[i] == ToLower(f.name)[i] {
      LowerUpper(f.name[i]);
    }
    assert ToLower(u) == ToLower(f.name);
  }

  /** A row of the headers table; cells may be null. */
  datatype HeaderRow = HeaderRow(name: Option<string>, value: Option<string>)

  predicate NamedRow(r: HeaderRow) {
    r.name.Some? && Trim(r.name.value) != []
  }

  function RowValue(r: HeaderRow): string {
    if r.value.Some? then Trim(r.value.value) else ""
  }

  /** `getHeaders` over the table rows: blank names skipped, names and
      values trimmed, a later row overriding an earlier one. */
  function HeadersOf(rows: seq<HeaderRow>): (m: map<string, string>)
    ensures forall k | k in m :: k != [] && Trim(k) == k
  {
    if rows == [] then map[]
    else
      var m0 := HeadersOf(rows[..|rows| - 1]);
      var r := rows[|rows| - 1];
      if NamedRow(r) then
        var k := Trim(r.name.value);
        TrimKeeps(k);
        m0[k := RowValue(r)]
      else m0
  }

  predicate Names(r: HeaderRow, k: string) {
    NamedRow(r) && Trim(r.name.value) == k
  }

  /** One step of `HeadersOf`: the last row updates the map of the others. */
  lemma HeadersStep(rows: seq<HeaderRow>)
    requires rows != []
    ensures var init := HeadersOf(rows[..|rows| - 1]);
      var r := rows[|rows| - 1];
      HeadersOf(rows) == if NamedRow(r) then init[Trim(r.name.value) := RowValue(r)] else init
  {
  }

  /** Every header comes from some row naming it. */
  lemma {:induction false} HeadersKeyOrigin(rows: seq<HeaderRow>, k: string) returns (i: nat)
    requires k in HeadersOf(rows)
    ensures i < |rows| && Names(rows[i], k)
  {
    var last := |rows| - 1;
    HeadersStep(rows);
    if Names(rows[last], k) {
      i := last;
    } else {
      var init := rows[..last];
      i := HeadersKeyOrigin(init, k);
      assert rows[i] == init[i];
    }
  }

  /** Every row naming a header puts it in the map. */
  lemma {:induction false} HeadersKeyPresent(rows: seq<HeaderRow>, k: string, i: nat)
    requires i < |rows| && Names(rows[i], k)
    ensures k in HeadersOf(rows)
  {
    var last := |rows| - 1;
    HeadersStep(rows);
    if i < last {
      var init := rows[..last];
      assert init[i] == rows[i];
      HeadersKeyPresent(init, k, i);
    }
  }

  /** A header is present exactly when some row names it. */
  lemma HeadersKeys(rows: seq<HeaderRow>, k: string)
    ensures k in HeadersOf(rows) <==> exists i | 0 <= i < |rows| :: Names(rows[i], k)
  {
    if k in HeadersOf(rows) {
      var i := HeadersKeyOrigin(rows, k);
    }
    if exists i | 0 <= i < |rows| :: Names(rows[i], k) {
      var i :| 0 <= i < |rows| && Names(rows[i], k);
      HeadersKeyPresent(rows, k, i);
    }
  }

  /** A header holds the value of the last row naming it. */
  lemma {:induction false} HeadersLastWins(rows: seq<HeaderRow>, k: string, i: nat)
    requires i < |rows| && Names(rows[i], k)
    requires forall j | i < j < |rows| :: !Names(rows[j], k)
    ensures k in HeadersOf(rows) && HeadersOf(rows)[k] == RowValue(rows[i])
  {
    var init := rows[..|rows| - 1];
    HeadersStep(rows);
    if i < |rows| - 1 {
      assert init[i] == rows[i];
      forall j | i < j < |init| ensures !Names(init[j], k) {
        assert init[j] == rows[j];
      }
      HeadersLastWins(init, k, i);
      assert !Names(rows[|rows| - 1], k);
    }
  }

  /** The per-tab state `getHeaders` and `closeSchemaTab` use; the widgets
      are not modelled. A null table model is `None`. */
  class SchemaTabData {
    var name: string
    var endpoint: string
    var headerRows: Option<seq<HeaderRow>>

    constructor (name: string)
      ensures this.name == name && endpoint == "" && headerRows.None?
    {
      this.name := name;
      endpoint := "";
      headerRows := None;
    }

    /** `getHeaders`. */
    method GetHeaders() returns (headers: map<string, string>)
      ensures headers == if headerRows.None? then map[] else HeadersOf(headerRows.value)
    {
      headers := map[];
      if headerRows.Some? {
        headers := HeadersFromRows(headerRows.value);
      }
    }
  }

  /** The row loop of `getHeaders`. */
  method HeadersFromRows(rows: seq<HeaderRow>) returns (headers: map<string, string>)
    ensures headers == HeadersOf(rows)
  {
    headers := map[];
    var i := 0;
    while i < |rows|
      invariant 0 <= i <= |rows|
      invariant headers == HeadersOf(rows[..i])
    {
      var row := rows[i];
      assert rows[..i + 1][..i] == rows[..i];
      HeadersStep(rows[..i + 1]);
      if row.name.Some? && Trim(row.name.value) != [] {
        headers := headers[Trim(row.name.value) := if row.value.Some? then Trim(row.value.value) else ""];
      }
      i := i + 1;
    }
    assert rows[..i] == rows;
  }

  /** The first position of `tab`, or -1 (`List.indexOf` by identity). */
  function IndexOfTab(tabs: seq<SchemaTabData>, tab: SchemaTabData): (r: int)
    ensures -1 <= r < |tabs|
    ensures r >= 0 ==> tabs[r] == tab && forall j | 0 <= j < r :: tabs[j] != tab
    ensures r == -1 ==> tab !in tabs
  {
    if tabs == [] then -1
    else if tabs[0] == tab then 0
    else var r := IndexOfTab(tabs[1..], tab); if r == -1 then -1 else r + 1
  }

  /** The list of schema tabs and the selected one. */
  class SchemaTabs {
    var tabs: seq<SchemaTabData>
    var selected: int
    var status: string

    constructor (first: SchemaTabData)
      ensures tabs == [first] && selected == 0 && status == ""
    {
      tabs, selected, status := [first], 0, "";
    }

    /** `closeSchemaTab`: removes the tab unless it is the last one; the
        selection moves to the same position, clamped to the new end. */
    method CloseSchemaTab(tab: SchemaTabData)
      modifies this
      ensures var idx := IndexOfTab(old(tabs), tab);
        if idx >= 0 && |old(tabs)| > 1 then
          tabs == old(tabs)[..idx] + old(tabs)[idx + 1..] &&
          selected == (if idx >= |tabs| then |tabs| - 1 else idx) && status == old(status)
        else
          tabs == old(tabs) && selected == old(selected) &&
          status == (if |old(tabs)| == 1 then "Cannot close the last schema tab" else old(status))
      ensures |old(tabs)| >= 1 ==> |tabs| >= 1
      ensures tabs != old(tabs) ==> |tabs| == |old(tabs)| - 1 && 0 <= selected < |tabs| && tab in old(tabs)
    {
      var idx := IndexOfTab(tabs, tab);
      if idx >= 0 && |tabs| > 1 {
        tabs := tabs[..idx] + tabs[idx + 1..];
        if idx >= |tabs| {
          idx := |tabs| - 1;
        }
        if idx >= 0 {
          selected := idx;
        }
      } else if |tabs| == 1 {
        status := "Cannot close the last schema tab";
      }
    }
  }

  /** A node of the schema tree: a root field, its operation and the schema. */
  class SchemaTreeNode {
    const field: Field
    const operationType: string
    const schema: Schema

    constructor (field: Field, operationType: string, schema: Schema)
      ensures this.field == field && this.operationType == operationType && this.schema == schema
    {
      this.field := field;
      this.operationType := operationType;
      this.schema := schema;
    }

    /** `generateQuery`. */
    method GenerateQuery() returns (r: string)
      requires schema.Indexed() && FieldsTyped(schema.types)
      requires field.typ.Some? && forall a | a in field.arguments :: a.typ.Some?
      ensures r == QueryText(schema.types, field, operationType)
    {
      var sb := ToLower(operationType) + " {\n";
      var call := "  " + field.name;
      var args := AppendArguments(field.arguments);
      call := call + args;
      call := call + " {\n";
      var inner := AddReturnFields(call, field.typ.value, 2);
      inner := inner + "  }\n";
      sb := sb + inner;
      sb := sb + "}\n";
      r := sb;
    }

    /** The argument list of `generateQuery`, written when there are arguments. */
    method AppendArguments(args: seq<Argument>) returns (r: string)
      requires schema.Indexed() && FieldsTyped(schema.types) && forall a | a in args :: a.typ.Some?
      ensures r == ArgumentList(schema.types, args)
    {
      if args == [] {
        return "";
      }
      var parts := "";
      for i := 0 to |args|
        invariant parts == Join(ArgumentValues(schema.types, args[..i]), ", ")
      {
        assert args[..i + 1][..i] == args[..i];
        if i > 0 {
          parts := parts + ", ";
        }
        var arg := args[i];
        var value := GetPlaceholderValue(arg.typ.value);
        parts := parts + (arg.name + ": " + value);
      }
      assert args[..|args|] == args;
      r := "(" + parts + ")";
    }

    /** `getPlaceholderValue`. */
    method GetPlaceholderValue(t: TypeRef) returns (r: string)
      requires schema.Indexed() && FieldsTyped(schema.types)
      ensures r == PlaceholderValue(schema.types, Some(t.name), t.isList)
    {
      var name := t.name;
      if t.isList {
        return "[" + ScalarPlaceholder(name) + "]";
      }
      var inputType := schema.GetType(name);
      if inputType.Some? && (inputType.value.kind == INPUT_OBJECT || EndsWith(name, "Input")) {
        r := BuildInputPlaceholder(inputType.value);
        return;
      }
      return ScalarPlaceholder(name);
    }

    /** `buildInputPlaceholder`. */
    method BuildInputPlaceholder(t: GripType) returns (r: string)
      requires forall f | f in t.fields :: f.typ.Some?
      ensures r == InputPlaceholder(t)
    {
      var fs := t.fields;
      var n := Min(3, |fs|);
      var parts := "";
      for i := 0 to n
        invariant parts == Join(InputEntries(fs[..i]), ", ")
      {
        InputEntriesSnoc(fs, i);
        if i > 0 {
          parts := parts + ", ";
        }
        var f := fs[i];
        parts := parts + (f.name + ": " + ScalarPlaceholder(f.typ.value.name));
      }
      r := "{ " + parts + " }";
    }

    /** `addReturnFields`. */
    method AddReturnFields(sb: string, typeRef: TypeRef, depth: nat) returns (out: string)
      requires schema.Indexed() && FieldsTyped(schema.types)
      ensures out == sb + ReturnFields(schema.types, typeRef.name, depth)
      decreases Budget(depth), 1
    {
      var indent := Repeat("  ", depth);
      ghost var types := schema.types;
      var t := schema.GetType(typeRef.name);
      if t.None? {
        assert typeRef.name !in types;
        return sb + (indent + "__typename\n");
      }
      var fs := t.value.fields;
      assert fs == types[typeRef.name].fields;
      out := sb;
      var count, nestedCount := 0, 0;
      var i := 0;
      while i < |fs|
        invariant 0 <= i <= |fs|
        invariant out == sb + FieldsWalk(types, fs[..i], depth).text
        invariant count == FieldsWalk(types, fs[..i], depth).count
        invariant nestedCount == FieldsWalk(types, fs[..i], depth).nested
      {
        FieldsWalkSnoc(types, fs, i, depth);
        out, count, nestedCount := AddField(sb, out, fs[i], depth, FieldsWalk(types, fs[..i], depth), count, nestedCount);
        i := i + 1;
      }
      assert fs[..i] == fs;
      ghost var w := FieldsWalk(types, fs, depth);
      if count == 0 {
        RegroupLine(sb, w.text, indent + "__typename\n");
        out := out + (indent + "__typename\n");
      }
    }

    /** The loop body of `addReturnFields` for one field. */
    method AddField(sb: string, out0: string, f: Field, depth: nat, ghost a: Acc, count0: nat, nested0: nat)
      returns (out: string, count: nat, nestedCount: nat)
      requires schema.Indexed() && FieldsTyped(schema.types) && f.typ.Some?
      requires out0 == sb + a.text && count0 == a.count && nested0 == a.nested
      ensures var b := FieldStep(schema.types, f, depth, a);
        out == sb + b.text && count == b.count && nestedCount == b.nested
      decreases Budget(depth), 0
    {
      var indent := Repeat("  ", depth);
      out, count, nestedCount := out0, count0, nested0;
      var fieldType := f.typ.value.name;
      var subType := schema.GetType(fieldType);
      if subType.None? || subType.value.kind == SCALAR || subType.value.kind == ENUM {
        out := out + (indent + f.name + "\n");
        count := count + 1;
      } else if depth < 3 && nestedCount < 3 {
        var open := indent + f.name + " {\n";
        out := out + open;
        out := AddReturnFields(out, f.typ.value, depth + 1);
        out := out + (indent + "}\n");
        RegroupText(sb, a.text, open, ReturnFields(schema.types, fieldType, depth + 1), indent + "}\n");
        count := count + 1;
        nestedCount := nestedCount + 1;
      }
    }
  }
}
