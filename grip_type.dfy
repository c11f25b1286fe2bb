/** Named types of a schema (GripType) and their SDL rendering. */
module GripTypes {
  import opened Wrappers
  import opened Text
  import opened TypeKinds
  import opened EnumValues
  import opened Fields

  /** Interfaces and possible types are held by name: the only thing the
      type reads from them is `getName()`. */
  datatype GripType = GripType(
    name: string,
    kind: Kind,
    description: Option<string>,
    fields: seq<Field>,
    interfaces: seq<string>,
    possibleTypes: seq<string>,
    enumValues: seq<EnumValue>,
    inputFields: seq<Field>)

  /** `new GripType(name, kind)`: every list starts empty. */
  function NewType(name: string, kind: Kind): (t: GripType)
    ensures t.name == name && t.kind == kind && t.description.None?
    ensures t.fields == [] && t.interfaces == [] && t.possibleTypes == [] && t.enumValues == [] && t.inputFields == []
  {
    GripType(name, kind, None, [], [], [], [], [])
  }

  function SetDescription(t: GripType, description: Option<string>): (r: GripType)
    ensures r == t.(description := description)
  {
    t.(description := description)
  }

  /** `addField`: appends, keeping insertion order. */
  function AddField(t: GripType, f: Field): (r: GripType)
    ensures r == t.(fields := t.fields + [f])
    ensures HasFields(r)
  {
    t.(fields := t.fields + [f])
  }

  function AddInterface(t: GripType, iface: string): (r: GripType)
    ensures r == t.(interfaces := t.interfaces + [iface])
  {
    t.(interfaces := t.interfaces + [iface])
  }

  function AddPossibleType(t: GripType, member: string): (r: GripType)
    ensures r == t.(possibleTypes := t.possibleTypes + [member])
  {
    t.(possibleTypes := t.possibleTypes + [member])
  }

  function AddEnumValue(t: GripType, v: EnumValue): (r: GripType)
    ensures r == t.(enumValues := t.enumValues + [v])
  {
    t.(enumValues := t.enumValues + [v])
  }

  /** `addEnumValue(String)`: a fresh, undeprecated value with that name. */
  function AddEnumValueNamed(t: GripType, name: string): (r: GripType)
    ensures r.enumValues == t.enumValues + [NewEnumValue(name)]
    ensures !r.enumValues[|r.enumValues| - 1].isDeprecated
  {
    AddEnumValue(t, NewEnumValue(name))
  }

  function AddInputField(t: GripType, f: Field): (r: GripType)
    ensures r == t.(inputFields := t.inputFields + [f])
  {
    t.(inputFields := t.inputFields + [f])
  }

  predicate HasFields(t: GripType) {
    t.fields != []
  }

  /** `getField`: the first field with the given name, or null. */
  method GetField(t: GripType, name: string) returns (r: Option<Field>)
    ensures r.Some? ==> exists i | 0 <= i < |t.fields| ::
      t.fields[i] == r.value && r.value.name == name &&
      forall j | 0 <= j < i :: t.fields[j].name != name
    ensures r.None? <==> forall i | 0 <= i < |t.fields| :: t.fields[i].name != name
  {
    for i := 0 to |t.fields|
      invariant forall j | 0 <= j < i :: t.fields[j].name != name
    {
      if t.fields[i].name == name {
        return Some(t.fields[i]);
      }
    }
    return None;
  }

  /** `isBuiltInScalar`: a SCALAR named String, Int, Float, Boolean or ID. */
  predicate IsBuiltInScalar(t: GripType) {
    t.kind == SCALAR && t.name in {"String", "Int", "Float", "Boolean", "ID"}
  }

  predicate IsLeaf(t: GripType) { t.kind.IsLeaf() }

  predicate IsComposite(t: GripType) { t.kind.IsComposite() }

  /** `isIntrospectionType`: the name starts with "__". */
  predicate IsIntrospectionType(t: GripType) {
    StartsWith(t.name, "__")
  }

  /** `equals`/`hashCode`: types are the same when their names are. */
  predicate SameType(a: GripType, b: GripType) {
    a.name == b.name
  }

  /** A built-in scalar is a leaf, never an introspection type, and stays
      one whatever is appended to its lists. */
  lemma BuiltInScalarShape(t: GripType, f: Field)
    requires IsBuiltInScalar(t)
    ensures IsLeaf(t) && !IsComposite(t) && !IsIntrospectionType(t)
    ensures IsBuiltInScalar(AddField(t, f)) && SameType(t, AddField(t, f))
  {
    assert t.name[0] != '_';
  }

  /** The `"""description"""` block printed before a type, when there is one. */
  function DescriptionBlock(description: Option<string>): string {
    if description.Some? && description.value != [] then "\"\"\"" + description.value + "\"\"\"\n" else ""
  }

  /** One member line of a block. */
  function Line(item: string): string {
    "  " + item + "\n"
  }

  /** The member lines of a block, in order. */
  function Lines(items: seq<string>): (r: string)
    decreases |items|
  {
    if items == [] then "" else Lines(items[..|items| - 1]) + Line(items[|items| - 1])
  }

  lemma LinesAppend(items: seq<string>, x: string)
    ensures Lines(items + [x]) == Lines(items) + Line(x)
  {
    assert (items + [x])[..|items|] == items;
  }

  function FieldTexts(fs: seq<Field>): (r: seq<string>)
    ensures |r| == |fs| && forall i | 0 <= i < |fs| :: r[i] == FieldToGraphQLString(fs[i])
  {
    if fs == [] then [] else [FieldToGraphQLString(fs[0])] + FieldTexts(fs[1..])
  }

  function EnumValueNames(vs: seq<EnumValue>): (r: seq<string>)
    ensures |r| == |vs| && forall i | 0 <= i < |vs| :: r[i] == vs[i].name
  {
    if vs == [] then [] else [vs[0].name] + EnumValueNames(vs[1..])
  }

  /** Kinds whose SDL is a `{ ... }` block of member lines. */
  predicate IsBlockKind(k: Kind) {
    k == OBJECT || k == INTERFACE || k == ENUM || k == INPUT_OBJECT
  }

  /** What a type's SDL says before its block (or in full, for other kinds). */
  function Header(t: GripType): string {
    match t.kind
    case SCALAR => "scalar " + t.name
    case OBJECT => "type " + t.name + (if t.interfaces == [] then "" else " implements " + Join(t.interfaces, " & "))
    case INTERFACE => "interface " + t.name
    case UNION => "union " + t.name + " = " + Join(t.possibleTypes, " | ")
    case ENUM => "enum " + t.name
    case INPUT_OBJECT => "input " + t.name
    case _ => "# Unknown type kind: " + KindName(t.kind)
  }

  /** The block's member texts: fields, enum value names or input fields. */
  function Members(t: GripType): seq<string> {
    match t.kind
    case OBJECT => FieldTexts(t.fields)
    case INTERFACE => FieldTexts(t.fields)
    case ENUM => EnumValueNames(t.enumValues)
    case INPUT_OBJECT => FieldTexts(t.inputFields)
    case _ => []
  }

  /** ` {` and a newline opening a block, for block kinds only. */
  function OpenBrace(t: GripType): string {
    if IsBlockKind(t.kind) then " {\n" else ""
  }

  function Closing(t: GripType): string {
    if IsBlockKind(t.kind) then "}" else ""
  }

  /** `toSDL`, as a value. */
  function SDL(t: GripType): string {
    DescriptionBlock(t.description) + Header(t) + OpenBrace(t) + Lines(Members(t)) + Closing(t)
  }

  lemma Regroup(a: string, b: string, c: string, d: string, e: string)
    ensures a + b + c + d + e == a + (b + c + d + e)
  {
  }

  /** The header, built as the switch in `toSDL` builds it. */
  method BuildHeader(t: GripType) returns (r: string)
    ensures r == Header(t)
  {
    match t.kind {
      case SCALAR =>
        r := "scalar " + t.name;
      case OBJECT =>
        r := "type " + t.name;
        if t.interfaces != [] {
          var joined := JoinLoop(t.interfaces, " & ");
          r := r + (" implements " + joined);
        }
      case INTERFACE =>
        r := "interface " + t.name;
      case UNION =>
        var joined := JoinLoop(t.possibleTypes, " | ");
        r := "union " + t.name + " = " + joined;
      case ENUM =>
        r := "enum " + t.name;
      case INPUT_OBJECT =>
        r := "input " + t.name;
      case _ =>
        r := "# Unknown type kind: " + KindName(t.kind);
    }
  }

  /** `toSDL`: the description block, the header and, for block kinds, one
      line per member. */
  method ToSDL(t: GripType) returns (r: string)
    ensures r == SDL(t)
  {
    var header := BuildHeader(t);
    r := DescriptionBlock(t.description) + header;
    if IsBlockKind(t.kind) {
      r := r + " {\n";
      var body := LinesLoop(Members(t));
      r := r + body + "}";
    } else {
      assert Members(t) == [];
      assert r == r + "" + "" + "";
    }
  }

  /** The `if (i > 0) sb.append(sep); sb.append(part)` loop. */
  method JoinLoop(parts: seq<string>, sep: string) returns (r: string)
    ensures r == Join(parts, sep)
  {
    r := "";
    for i := 0 to |parts|
      invariant r == Join(parts[..i], sep)
    {
      assert parts[..i + 1][..i] == parts[..i];
      if i > 0 {
        r := r + sep;
      }
      r := r + parts[i];
    }
    assert parts[..|parts|] == parts;
  }

  /** The `sb.append("  ").append(item).append("\n")` loop. */
  method LinesLoop(items: seq<string>) returns (r: string)
    ensures r == Lines(items)
  {
    r := "";
    for i := 0 to |items|
      invariant r == Lines(items[..i])
    {
      assert items[..i + 1][..i] == items[..i];
      r := r + Line(items[i]);
    }
    assert items[..|items|] == items;
  }

  lemma FieldTextsAppend(fs: seq<Field>, f: Field)
    ensures FieldTexts(fs + [f]) == FieldTexts(fs) + [FieldToGraphQLString(f)]
  {
  }

  lemma EnumValueNamesAppend(vs: seq<EnumValue>, v: EnumValue)
    ensures EnumValueNames(vs + [v]) == EnumValueNames(vs) + [v.name]
  {
  }

  /** The description is a prefix of its own: changing it changes nothing else. */
  lemma DescriptionIsPrefix(t: GripType, d: Option<string>)
    ensures SDL(SetDescription(t, d)) == DescriptionBlock(d) + SDL(SetDescription(t, None))
    ensures d.None? || d.value == [] ==> SDL(SetDescription(t, d)) == SDL(SetDescription(t, None))
  {
    var body := Header(t) + OpenBrace(t) + Lines(Members(t)) + Closing(t);
    assert SDL(SetDescription(t, d)) == DescriptionBlock(d) + body by {
      DescriptionBody(t, d);
    }
    assert SDL(SetDescription(t, None)) == body by {
      DescriptionBody(t, None);
    }
  }

  /** Everything after the description block is the same whatever the description. */
  lemma DescriptionBody(t: GripType, d: Option<string>)
    ensures SDL(SetDescription(t, d))
      == DescriptionBlock(d) + (Header(t) + OpenBrace(t) + Lines(Members(t)) + Closing(t))
  {
    var u := SetDescription(t, d);
    assert Header(u) == Header(t) && Members(u) == Members(t);
    Regroup(DescriptionBlock(d), Header(t), OpenBrace(t), Lines(Members(t)), Closing(t));
  }

  /** Adding a field to an object or interface adds exactly its line after
      the existing ones, before the closing brace. */
  lemma AddFieldAddsLine(t: GripType, f: Field)
    requires t.kind == OBJECT || t.kind == INTERFACE
    ensures SDL(AddField(t, f)) ==
      DescriptionBlock(t.description) + Header(t) + OpenBrace(t) + (Lines(Members(t)) + Line(FieldToGraphQLString(f))) + Closing(t)
  {
    var u := AddField(t, f);
    assert Header(u) == Header(t);
    FieldTextsAppend(t.fields, f);
    assert Members(u) == Members(t) + [FieldToGraphQLString(f)];
    LinesAppend(Members(t), FieldToGraphQLString(f));
  }

  /** Adding a value to an enum adds exactly its name line after the
      existing ones, before the closing brace. */
  lemma AddEnumValueAddsLine(t: GripType, v: EnumValue)
    requires t.kind == ENUM
    ensures SDL(AddEnumValue(t, v)) ==
      DescriptionBlock(t.description) + Header(t) + OpenBrace(t) + (Lines(Members(t)) + Line(v.name)) + Closing(t)
  {
    var u := AddEnumValue(t, v);
    assert Header(u) == Header(t);
    EnumValueNamesAppend(t.enumValues, v);
    LinesAppend(Members(t), v.name);
  }

  /** Fields of a kind that does not print them never reach the SDL. */
  lemma FieldsOnlyShowOnObjectsAndInterfaces(t: GripType, f: Field)
    requires t.kind != OBJECT && t.kind != INTERFACE
    ensures SDL(AddField(t, f)) == SDL(t)
  {
    var u := AddField(t, f);
    assert Header(u) == Header(t) && Members(u) == Members(t);
  }
}
