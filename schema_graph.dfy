/** The schema graph view: which types become nodes and which fields become
    edges (`buildGraphFromSchema`), the selection text a generated query puts
    under a field (`appendSelection`) and the argument placeholders
    (`generatePlaceholder`). Layout, colours, zoom and painting are not part
    of this model. */
module SchemaGraph {
  import opened Wrappers
  import opened Text
  import opened TypeKinds
  import opened TypeRefs
  import opened Fields
  import opened GripTypes
  import opened Schemas

  /** A node stands for one stored type. The Java nodes are distinct
      objects, one per name, so comparing two nodes compares their names. */
  datatype Node = Node(name: string, typ: GripType)

  /** An edge from the type owning a field to the type the field returns. */
  datatype Edge = Edge(source: string, target: string, fieldName: string)

  /** Introspection types (`__Schema`, `__Type`, ...) are kept out of the graph. */
  predicate Hidden(name: string) {
    StartsWith(name, "__")
  }

  /** Every field of the listed types carries a type reference: the Java
      reads `field.getType().getName()` without a null check. */
  predicate Typed(vs: seq<GripType>) {
    forall t, f | t in vs && f in t.fields :: f.typ.Some?
  }

  lemma ValuesTyped(order: seq<string>, types: TypeMap)
    requires forall n | n in order :: n in types
    requires FieldsTyped(types)
    ensures Typed(ValuesInOrder(order, types))
  {
    var vs := ValuesInOrder(order, types);
    forall t, f | t in vs && f in t.fields ensures f.typ.Some? {
      var i :| 0 <= i < |vs| && vs[i] == t;
      assert t == types[order[i]];
    }
  }

  /** The nodes: one per type in map order, introspection types skipped. */
  function GraphNodes(vs: seq<GripType>): (r: seq<Node>)
    ensures forall n | n in r :: n.name == n.typ.name && n.typ in vs && !Hidden(n.name)
    ensures forall t | t in vs && !Hidden(t.name) :: Node(t.name, t) in r
    ensures |r| <= |vs|
  {
    if vs == [] then []
    else
      var t := vs[|vs| - 1];
      var r0 := GraphNodes(vs[..|vs| - 1]);
      assert forall u | u in vs :: u in vs[..|vs| - 1] || u == t;
      if Hidden(t.name) then r0 else r0 + [Node(t.name, t)]
  }

  function NodeNames(ns: seq<Node>): set<string> {
    set n | n in ns :: n.name
  }

  /** The edges one type contributes: one per field whose return type is a
      node other than the type itself. */
  function FieldEdges(source: string, fs: seq<Field>, names: set<string>): (r: seq<Edge>)
    requires forall f | f in fs :: f.typ.Some?
    ensures forall e | e in r :: e.source == source && e.target in names && e.target != source
    ensures forall e | e in r :: exists f | f in fs :: e == Edge(source, f.typ.value.name, f.name)
    ensures forall f | f in fs && f.typ.value.name in names && f.typ.value.name != source ::
      Edge(source, f.typ.value.name, f.name) in r
    ensures |r| <= |fs|
  {
    if fs == [] then []
    else
      var f := fs[|fs| - 1];
      var r0 := FieldEdges(source, fs[..|fs| - 1], names);
      assert forall g | g in fs :: g in fs[..|fs| - 1] || g == f;
      if f.typ.value.name in names && f.typ.value.name != source
      then r0 + [Edge(source, f.typ.value.name, f.name)]
      else r0
  }

  lemma FieldEdgesStep(source: string, fs: seq<Field>, names: set<string>, j: nat)
    requires forall f | f in fs :: f.typ.Some?
    requires j < |fs|
    ensures var target := fs[j].typ.value.name;
      FieldEdges(source, fs[..j + 1], names) ==
        if target in names && target != source then FieldEdges(source, fs[..j], names) + [Edge(source, target, fs[j].name)]
        else FieldEdges(source, fs[..j], names)
  {
    assert fs[..j + 1][..j] == fs[..j];
  }

  /** All edges, type by type in map order. */
  function GraphEdges(vs: seq<GripType>, names: set<string>): (r: seq<Edge>)
    requires Typed(vs)
    ensures forall e | e in r :: e.source in names && e.target in names && e.source != e.target && !Hidden(e.source)
    ensures forall e | e in r :: exists t, f | t in vs && f in t.fields ::
      e == Edge(t.name, f.typ.value.name, f.name)
  {
    if vs == [] then []
    else
      var t := vs[|vs| - 1];
      var r0 := GraphEdges(vs[..|vs| - 1], names);
      if Hidden(t.name) || t.name !in names then r0
      else
        var more := FieldEdges(t.name, t.fields, names);
        assert forall e | e in more :: exists f | f in t.fields :: e == Edge(t.name, f.typ.value.name, f.name);
        r0 + more
  }

  /** Every field of a shown type whose return type is another shown type
      has its edge. */
  lemma {:induction false} GraphEdgesComplete(vs: seq<GripType>, names: set<string>, t: GripType, f: Field)
    requires Typed(vs)
    requires t in vs && !Hidden(t.name) && t.name in names && f in t.fields
    requires f.typ.value.name in names && f.typ.value.name != t.name
    ensures Edge(t.name, f.typ.value.name, f.name) in GraphEdges(vs, names)
  {
    var last := vs[|vs| - 1];
    if t != last {
      assert t in vs[..|vs| - 1];
      GraphEdgesComplete(vs[..|vs| - 1], names, t, f);
    }
  }

  /** The graph of the types `vs`: no node for an introspection type, no
      self-loop, and every edge joins two nodes. */
  lemma GraphShape(vs: seq<GripType>)
    requires Typed(vs)
    ensures var ns := GraphNodes(vs);
      (forall n | n in ns :: !Hidden(n.name)) &&
      (forall e | e in GraphEdges(vs, NodeNames(ns)) ::
         e.source != e.target && e.source in NodeNames(ns) && e.target in NodeNames(ns))
  {
  }

  /** The line `appendSelection` writes for one subfield: its name, and a
      `{ __typename }` stub for an object-typed subfield near the top. */
  function SubfieldLine(types: TypeMap, f: Field, indent: string, depth: nat): string
    requires f.typ.Some?
  {
    indent + f.name + Stub(types, f.typ.value.name, depth) + "\n"
  }

  /** The `{ __typename }` stub an object-typed subfield gets near the top. */
  function Stub(types: TypeMap, sub: string, depth: nat): (r: string)
    ensures NoNewline(r)
  {
    if sub in types && types[sub].kind == OBJECT && depth < 2 then " { __typename }" else ""
  }

  function SubfieldLines(types: TypeMap, fs: seq<Field>, indent: string, depth: nat): string
    requires forall f | f in fs :: f.typ.Some?
  {
    if fs == [] then []
    else SubfieldLines(types, fs[..|fs| - 1], indent, depth) + SubfieldLine(types, fs[|fs| - 1], indent, depth)
  }

  lemma SubfieldLinesSnoc(types: TypeMap, fs: seq<Field>, i: nat, indent: string, depth: nat)
    requires i < |fs| && forall f | f in fs :: f.typ.Some?
    ensures SubfieldLines(types, fs[..i + 1], indent, depth) ==
      SubfieldLines(types, fs[..i], indent, depth) + SubfieldLine(types, fs[i], indent, depth)
  {
    assert fs[..i + 1][..i] == fs[..i];
  }

  function Min(a: nat, b: nat): nat { if a <= b then a else b }

  /** The first six subfields, then `__typename` when more were left over. */
  function SelectionBody(types: TypeMap, fs: seq<Field>, indent: string, depth: nat): string
    requires forall f | f in fs :: f.typ.Some?
  {
    SubfieldLines(types, fs[..Min(6, |fs|)], indent, depth) + (if |fs| > 6 then indent + "__typename\n" else "")
  }

  /** What `appendSelection` appends for `field` at `depth`. */
  function Selection(types: TypeMap, field: Field, depth: nat): string
    requires FieldsTyped(types) && field.typ.Some?
  {
    var typeName := field.typ.value.name;
    if typeName !in types || types[typeName].kind == SCALAR || types[typeName].kind == ENUM then ""
    else if depth > 3 then " { __typename }"
    else " {\n" + SelectionBody(types, types[typeName].fields, Repeat("  ", depth + 1), depth) + Repeat("  ", depth) + "}"
  }

  lemma SelectionBodyCut(types: TypeMap, fs: seq<Field>, indent: string, depth: nat)
    requires forall f | f in fs :: f.typ.Some?
    ensures |fs| <= 6 ==> SelectionBody(types, fs, indent, depth) == SubfieldLines(types, fs, indent, depth)
    ensures |fs| > 6 ==>
      SelectionBody(types, fs, indent, depth) == SubfieldLines(types, fs[..6], indent, depth) + (indent + "__typename\n")
  {
    assert fs[..|fs|] == fs;
  }

  lemma AppendAssoc(a: string, b: string, c: string)
    ensures (a + b) + c == a + (b + c)
  {
  }

  lemma AppendAssoc2(a: seq<Edge>, b: seq<Edge>, c: seq<Edge>)
    ensures (a + b) + c == a + (b + c)
  {
  }

  /** The block form of a selection, for a type that gets one at depth three or less. */
  lemma SelectionBlock(types: TypeMap, field: Field, depth: nat)
    requires FieldsTyped(types) && field.typ.Some?
    requires var n := field.typ.value.name;
      n in types && types[n].kind != SCALAR && types[n].kind != ENUM && depth <= 3
    ensures Selection(types, field, depth) ==
      " {\n" + (SelectionBody(types, types[field.typ.value.name].fields, Repeat("  ", depth + 1), depth) + (Repeat("  ", depth) + "}"))
  {
  }

  /** A field gets a selection exactly when its type is a stored type that
      is neither SCALAR nor ENUM. */
  lemma SelectionEmpty(types: TypeMap, field: Field, depth: nat)
    requires FieldsTyped(types) && field.typ.Some?
    ensures var n := field.typ.value.name;
      Selection(types, field, depth) == "" <==> (n !in types || types[n].kind == SCALAR || types[n].kind == ENUM)
  {
  }

  /** Each subfield takes exactly one line. */
  lemma {:induction false} SubfieldLinesCount(types: TypeMap, fs: seq<Field>, indent: string, depth: nat)
    requires forall f | f in fs :: f.typ.Some? && NoNewline(f.name)
    requires NoNewline(indent)
    ensures CountChar(SubfieldLines(types, fs, indent, depth), '\n') == |fs|
  {
    if fs != [] {
      var init := fs[..|fs| - 1];
      var f := fs[|fs| - 1];
      SubfieldLinesCount(types, init, indent, depth);
      var stub := Stub(types, f.typ.value.name, depth);
      NoNewlineAppend(indent, f.name);
      NoNewlineAppend(indent + f.name, stub);
      OneLine(indent + f.name + stub);
      CountCharAppend(SubfieldLines(types, init, indent, depth), SubfieldLine(types, f, indent, depth), '\n');
    }
  }

  /** The lines of a selection body: one per listed subfield, plus the
      `__typename` line when fields were left out. */
  lemma SelectionBodyCount(types: TypeMap, fs: seq<Field>, indent: string, depth: nat)
    requires forall f | f in fs :: f.typ.Some? && NoNewline(f.name)
    requires NoNewline(indent)
    ensures CountChar(SelectionBody(types, fs, indent, depth), '\n') == Min(6, |fs|) + (if |fs| > 6 then 1 else 0)
  {
    var shown := fs[..Min(6, |fs|)];
    SubfieldLinesCount(types, shown, indent, depth);
    var more := if |fs| > 6 then indent + "__typename\n" else "";
    if |fs| > 6 {
      NoNewlineAppend(indent, "__typename");
      OneLine(indent + "__typename");
      assert "__typename" + "\n" == "__typename\n";
      AppendAssoc(indent, "__typename", "\n");
    } else {
      assert CountChar(more, '\n') == 0;
    }
    assert |shown| == Min(6, |fs|);
    assert SelectionBody(types, fs, indent, depth) == SubfieldLines(types, shown, indent, depth) + more;
    CountCharAppend(SubfieldLines(types, shown, indent, depth), more, '\n');
  }

  /** A selection block lists at most six subfields, one per line after
      the opening line, and one more `__typename` line when fields were
      left out. */
  lemma SelectionLines(types: TypeMap, field: Field, depth: nat)
    requires FieldsTyped(types) && field.typ.Some?
    requires var n := field.typ.value.name;
      n in types && types[n].kind != SCALAR && types[n].kind != ENUM && depth <= 3
    requires forall f | f in types[field.typ.value.name].fields :: NoNewline(f.name)
    ensures var fs := types[field.typ.value.name].fields;
      CountChar(Selection(types, field, depth), '\n') == 1 + Min(6, |fs|) + (if |fs| > 6 then 1 else 0)
  {
    var fs := types[field.typ.value.name].fields;
    var indent := Repeat("  ", depth + 1);
    var close := Repeat("  ", depth) + "}";
    RepeatNoNewline("  ", depth + 1);
    RepeatNoNewline("  ", depth);
    NoNewlineAppend(Repeat("  ", depth), "}");
    NoNewlineCount(close);
    SelectionBodyCount(types, fs, indent, depth);
    var body := SelectionBody(types, fs, indent, depth);
    SelectionBlock(types, field, depth);
    CountCharAppend(body, close, '\n');
    CountCharAppend(" {\n", body + close, '\n');
  }

  /** `generatePlaceholder` on the name of an argument's type; a missing
      name is read as String. */
  function PlaceholderOfName(name: Option<string>): string {
    var n := name.GetOr("String");
    if n == "String" || n == "ID" then "\"<VALUE>\""
    else if n == "Int" then "0"
    else if n == "Float" then "0.0"
    else if n == "Boolean" then "true"
    else "\"<" + ToUpper(n) + ">\""
  }

  function GeneratePlaceholder(t: TypeRef): string {
    PlaceholderOfName(Some(t.name))
  }

  /** Numbers and booleans are bare literals; every other type gets a quoted
      `<...>` marker, VALUE for String and ID, the upper-cased name else. */
  lemma PlaceholderForms(name: Option<string>)
    ensures var n := name.GetOr("String");
      var r := PlaceholderOfName(name);
      (n in {"Int", "Float", "Boolean"} <==> r in {"0", "0.0", "true"}) &&
      (n !in {"Int", "Float", "Boolean"} ==>
         r == "\"<" + (if n in {"String", "ID"} then "VALUE" else ToUpper(n)) + ">\"")
    ensures PlaceholderOfName(None) == PlaceholderOfName(Some("String"))
  {
    var n := name.GetOr("String");
    var r := PlaceholderOfName(name);
    if n !in {"Int", "Float", "Boolean"} {
      assert r[0] == '"';
    }
  }

  /** The field loop of `buildGraphFromSchema` for one type: an edge per
      field whose return type is a node other than the type's own. */
  method EdgesOfFields(t: GripType, nodeMap: map<string, Node>, ghost names: set<string>) returns (more: seq<Edge>)
    requires forall f | f in t.fields :: f.typ.Some?
    requires t.name in nodeMap
    requires names == nodeMap.Keys && forall k | k in nodeMap :: nodeMap[k].name == k
    ensures more == FieldEdges(t.name, t.fields, names)
  {
    var source := nodeMap[t.name];
    more := [];
    var j := 0;
    while j < |t.fields|
      invariant 0 <= j <= |t.fields|
      invariant more == FieldEdges(t.name, t.fields[..j], names)
    {
      var f := t.fields[j];
      var target := f.typ.value.name;
      FieldEdgesStep(t.name, t.fields, names, j);
      assert source.name == t.name && (target in nodeMap ==> nodeMap[target].name == target);
      if target in nodeMap && nodeMap[target] != source {
        more := more + [Edge(source.name, target, f.name)];
      }
      j := j + 1;
    }
    assert t.fields[..j] == t.fields;
  }

  /** The loop behind the first pass of `buildGraphFromSchema`: a node per
      shown type, and the name index beside it. */
  method NodesFrom(all: seq<GripType>) returns (nodes: seq<Node>, nodeMap: map<string, Node>)
    ensures nodes == GraphNodes(all)
    ensures nodeMap.Keys == NodeNames(nodes) && forall k | k in nodeMap :: nodeMap[k].name == k
  {
    nodes, nodeMap := [], map[];
    var i := 0;
    while i < |all|
      invariant 0 <= i <= |all|
      invariant nodes == GraphNodes(all[..i])
      invariant nodeMap.Keys == NodeNames(nodes)
      invariant forall k | k in nodeMap :: nodeMap[k].name == k
    {
      var t := all[i];
      GraphNodesStep(all, i);
      if !StartsWith(t.name, "__") {
        var node := Node(t.name, t);
        NodeNamesSnoc(nodes, node);
        nodes := nodes + [node];
        nodeMap := nodeMap[t.name := node];
      }
      i := i + 1;
    }
    assert all[..i] == all;
  }

  lemma GraphNodesStep(all: seq<GripType>, i: nat)
    requires i < |all|
    ensures GraphNodes(all[..i + 1]) ==
      if Hidden(all[i].name) then GraphNodes(all[..i]) else GraphNodes(all[..i]) + [Node(all[i].name, all[i])]
  {
    assert all[..i + 1][..i] == all[..i];
  }

  lemma NodeNamesSnoc(ns: seq<Node>, n: Node)
    ensures NodeNames(ns + [n]) == NodeNames(ns) + {n.name}
  {
    assert forall m | m in ns + [n] :: m in ns || m == n;
  }

  class GraphPanel {
    var schema: Schema?
    var nodes: seq<Node>
    var edges: seq<Edge>
    var nodeMap: map<string, Node>

    constructor ()
      ensures schema == null && nodes == [] && edges == [] && nodeMap == map[]
    {
      schema, nodes, edges, nodeMap := null, [], [], map[];
    }

    /** `setSchema`: stores the schema and rebuilds the graph. */
    method SetSchema(s: Schema?)
      requires s != null ==> s.Valid() && FieldsTyped(s.types)
      modifies this
      ensures schema == s
      ensures s == null ==> nodes == [] && edges == [] && nodeMap == map[]
      ensures s != null ==> nodes == GraphNodes(s.Values()) && edges == GraphEdges(s.Values(), NodeNames(nodes))
    {
      schema := s;
      BuildGraphFromSchema();
    }

    /** `buildGraphFromSchema`: clears the graph, then one node per shown
        type and one edge per field that points at another node. */
    method BuildGraphFromSchema()
      requires schema != null ==> schema.Valid() && FieldsTyped(schema.types)
      modifies this
      ensures schema == old(schema)
      ensures schema == null ==> nodes == [] && edges == [] && nodeMap == map[]
      ensures schema != null ==>
        nodes == GraphNodes(schema.Values()) &&
        nodeMap.Keys == NodeNames(nodes) && (forall k | k in nodeMap :: nodeMap[k].name == k) &&
        edges == GraphEdges(schema.Values(), NodeNames(nodes))
    {
      nodes, edges, nodeMap := [], [], map[];
      if schema == null {
        return;
      }
      var all := schema.Values();
      ValuesTyped(schema.order, schema.types);
      AddNodes(all);
      AddEdges(all, NodeNames(nodes));
    }

    /** The first loop of `buildGraphFromSchema`: a node per shown type. */
    method AddNodes(all: seq<GripType>)
      requires nodes == [] && nodeMap == map[]
      modifies this
      ensures schema == old(schema) && edges == old(edges)
      ensures nodes == GraphNodes(all)
      ensures nodeMap.Keys == NodeNames(nodes) && forall k | k in nodeMap :: nodeMap[k].name == k
    {
      nodes, nodeMap := NodesFrom(all);
    }

    /** The second loop of `buildGraphFromSchema`: the edges of every shown type. */
    method AddEdges(all: seq<GripType>, ghost names: set<string>)
      requires Typed(all)
      requires names == nodeMap.Keys && forall k | k in nodeMap :: nodeMap[k].name == k
      modifies this
      ensures schema == old(schema) && nodes == old(nodes) && nodeMap == old(nodeMap)
      ensures edges == old(edges) + GraphEdges(all, names)
    {
      var i := 0;
      while i < |all|
        invariant 0 <= i <= |all|
        invariant schema == old(schema) && nodes == old(nodes) && nodeMap == old(nodeMap)
        invariant edges == old(edges) + GraphEdges(all[..i], names)
      {
        var t := all[i];
        assert all[..i + 1][..i] == all[..i];
        if !StartsWith(t.name, "__") && t.name in nodeMap {
          AddFieldEdges(t, names);
          AppendAssoc2(old(edges), GraphEdges(all[..i], names), FieldEdges(t.name, t.fields, names));
        }
        i := i + 1;
      }
      assert all[..i] == all;
    }

    /** The inner loop: an edge per field pointing at another node. */
    method AddFieldEdges(t: GripType, ghost names: set<string>)
      requires forall f | f in t.fields :: f.typ.Some?
      requires t.name in nodeMap
      requires names == nodeMap.Keys && forall k | k in nodeMap :: nodeMap[k].name == k
      modifies this
      ensures schema == old(schema) && nodes == old(nodes) && nodeMap == old(nodeMap)
      ensures edges == old(edges) + FieldEdges(t.name, t.fields, names)
    {
      var more := EdgesOfFields(t, nodeMap, names);
      edges := edges + more;
    }

    /** `appendSelection`: appends the selection of `field` to `sb`. */
    method AppendSelection(sb: string, field: Field, depth: nat) returns (out: string)
      requires schema != null && schema.Valid() && FieldsTyped(schema.types) && field.typ.Some?
      ensures out == sb + Selection(schema.types, field, depth)
    {
      var typeName := field.typ.value.name;
      var fieldType := schema.GetType(typeName);
      if fieldType.None? || fieldType.value.kind == SCALAR || fieldType.value.kind == ENUM {
        return sb;
      }
      if depth > 3 {
        return sb + " { __typename }";
      }
      ghost var body := SelectionBody(schema.types, fieldType.value.fields, Repeat("  ", depth + 1), depth);
      out := AppendSubfields(sb + " {\n", fieldType.value.fields, depth);
      var close := Repeat("  ", depth) + "}";
      out := out + close;
      SelectionBlock(schema.types, field, depth);
      AppendAssoc(sb + " {\n", body, close);
      AppendAssoc(sb, " {\n", body + close);
    }

    /** The subfield lines of a selection block, as the loop of
        `appendSelection` writes them. */
    method AppendSubfields(sb: string, fs: seq<Field>, depth: nat) returns (out: string)
      requires schema != null && schema.Valid() && forall f | f in fs :: f.typ.Some?
      ensures out == sb + SelectionBody(schema.types, fs, Repeat("  ", depth + 1), depth)
    {
      out := sb;
      ghost var head := out;
      ghost var types := schema.types;
      var indent := Repeat("  ", depth + 1);
      var count := 0;
      var i := 0;
      while i < |fs|
        invariant 0 <= i <= |fs| && count == i && i <= 6
        invariant out == head + SubfieldLines(types, fs[..i], indent, depth)
      {
        if count >= 6 {
          out := out + (indent + "__typename\n");
          SelectionBodyCut(types, fs, indent, depth);
          AppendAssoc(head, SubfieldLines(types, fs[..6], indent, depth), indent + "__typename\n");
          break;
        }
        var line := WriteSubfield(fs[i], indent, depth);
        SubfieldLinesSnoc(types, fs, i, indent, depth);
        AppendAssoc(head, SubfieldLines(types, fs[..i], indent, depth), line);
        out := out + line;
        count := count + 1;
        i := i + 1;
      }
      if i == |fs| {
        assert fs[..i] == fs;
        SelectionBodyCut(types, fs, indent, depth);
      }
    }

    /** One subfield line of `appendSelection`. */
    method WriteSubfield(f: Field, indent: string, depth: nat) returns (line: string)
      requires schema != null && schema.Valid() && f.typ.Some?
      ensures line == SubfieldLine(schema.types, f, indent, depth)
    {
      line := indent + f.name;
      var subTypeName := f.typ.value.name;
      var subType := schema.GetType(subTypeName);
      if subType.Some? && subType.value.kind == OBJECT && depth < 2 {
        line := line + " { __typename }";
      }
      line := line + "\n";
    }
  }
}
