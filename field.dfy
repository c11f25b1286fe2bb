/** Fields of object, interface and input types (GripField). */
module Fields {
  import opened Wrappers
  import opened Text
  import opened TypeKinds
  import opened TypeRefs
  import opened Arguments

  datatype Field = Field(
    name: string,
    typ: Option<TypeRef>,
    description: Option<string>,
    arguments: seq<Argument>,
    isDeprecated: bool,
    deprecationReason: Option<string>)

  /** `new GripField(name, type)`: no arguments and not deprecated. */
  function NewField(name: string, typ: Option<TypeRef>): (f: Field)
    ensures f.name == name && f.typ == typ && f.arguments == [] && !f.isDeprecated
  {
    Field(name, typ, None, [], false, None)
  }

  function SetType(f: Field, typ: Option<TypeRef>): (r: Field)
    ensures r.typ == typ && r.name == f.name && r.arguments == f.arguments
    ensures r == f.(typ := typ)
  {
    f.(typ := typ)
  }

  function SetDescription(f: Field, description: Option<string>): (r: Field)
    ensures r.description == description && r.name == f.name && r.typ == f.typ && r.arguments == f.arguments
    ensures r == f.(description := description)
  {
    f.(description := description)
  }

  function SetDeprecated(f: Field, deprecated: bool): (r: Field)
    ensures r.isDeprecated == deprecated && r.name == f.name && r.typ == f.typ && r.arguments == f.arguments
    ensures r == f.(isDeprecated := deprecated)
  {
    f.(isDeprecated := deprecated)
  }

  /** `setDeprecationReason`: always stores the reason; only a non-empty one
      sets the deprecation flag. */
  function SetDeprecationReason(f: Field, reason: Option<string>): (r: Field)
    ensures r.deprecationReason == reason && r.name == f.name && r.typ == f.typ && r.arguments == f.arguments
    ensures r.description == f.description
    ensures r.isDeprecated <==> f.isDeprecated || (reason.Some? && reason.value != [])
  {
    f.(deprecationReason := reason, isDeprecated := f.isDeprecated || (reason.Some? && reason.value != []))
  }

  /** `addArgument`: appends, duplicates included. */
  function AddArgument(f: Field, a: Argument): (r: Field)
    ensures r.arguments == f.arguments + [a] && r.name == f.name && r.typ == f.typ
    ensures r == f.(arguments := f.arguments + [a])
  {
    f.(arguments := f.arguments + [a])
  }

  predicate HasArguments(f: Field) {
    f.arguments != []
  }

  /** `isLeafType`: the type is known and SCALAR or ENUM. */
  predicate IsLeafType(f: Field) {
    f.typ.Some? && f.typ.value.kind.IsLeaf()
  }

  /** `equals`: fields are the same when their names are. */
  predicate SameField(a: Field, b: Field) {
    a.name == b.name
  }

  /** `getArgument`: the first argument with the given name, or null. */
  method GetArgument(f: Field, name: string) returns (r: Option<Argument>)
    ensures r.Some? ==> exists i | 0 <= i < |f.arguments| ::
      f.arguments[i] == r.value && r.value.name == name &&
      forall j | 0 <= j < i :: f.arguments[j].name != name
    ensures r.None? <==> forall i | 0 <= i < |f.arguments| :: f.arguments[i].name != name
  {
    var i := 0;
    while i < |f.arguments|
      invariant 0 <= i <= |f.arguments|
      invariant forall j | 0 <= j < i :: f.arguments[j].name != name
    {
      if f.arguments[i].name == name {
        return Some(f.arguments[i]);
      }
      i := i + 1;
    }
    return None;
  }

  /** The required arguments, in their declared order. */
  function RequiredArguments(args: seq<Argument>): (r: seq<Argument>)
    ensures |r| <= |args|
    ensures forall a :: a in r <==> a in args && IsRequired(a)
  {
    if args == [] then []
    else (if IsRequired(args[0]) then [args[0]] else []) + RequiredArguments(args[1..])
  }

  /** Filtering distributes over concatenation, so the filter keeps the relative order. */
  lemma {:induction false} RequiredArgumentsAppend(a: seq<Argument>, b: seq<Argument>)
    ensures RequiredArguments(a + b) == RequiredArguments(a) + RequiredArguments(b)
  {
    if a == [] {
      assert a + b == b;
    } else {
      assert (a + b)[1..] == a[1..] + b;
      RequiredArgumentsAppend(a[1..], b);
    }
  }

  /** `getRequiredArguments`: the order-preserving filter of the arguments by `isRequired`. */
  method GetRequiredArguments(f: Field) returns (r: seq<Argument>)
    ensures r == RequiredArguments(f.arguments)
  {
    r := [];
    var i := 0;
    while i < |f.arguments|
      invariant 0 <= i <= |f.arguments|
      invariant r == RequiredArguments(f.arguments[..i])
    {
      var a := f.arguments[i];
      RequiredArgumentsAppend(f.arguments[..i], [a]);
      assert f.arguments[..i + 1] == f.arguments[..i] + [a];
      if IsRequired(a) {
        r := r + [a];
      }
      i := i + 1;
    }
    assert f.arguments[..i] == f.arguments;
  }

  /** `toGraphQLString`: the name, `(a, b)` only when there are arguments,
      then `: ` and the type or "Unknown". */
  function FieldToGraphQLString(f: Field): (r: string)
    ensures StartsWith(r, f.name)
    ensures EndsWith(r, ": " + TypeText(f.typ))
    ensures f.arguments == [] ==> r == f.name + ": " + TypeText(f.typ)
    ensures f.arguments != [] ==> |r| > |f.name| && r[|f.name|] == '('
    ensures f.arguments != [] ==> r == f.name + "(" + Join(ArgumentTexts(f.arguments), ", ") + "): " + TypeText(f.typ)
  {
    var args := if f.arguments == [] then "" else "(" + Join(ArgumentTexts(f.arguments), ", ") + ")";
    var r := f.name + args + ": " + TypeText(f.typ);
    assert f.arguments != [] ==> r == f.name + "(" + Join(ArgumentTexts(f.arguments), ", ") + "): " + TypeText(f.typ);
    assert r[..|f.name|] == f.name;
    assert r[|r| - |": " + TypeText(f.typ)|..] == ": " + TypeText(f.typ);
    r
  }

  /** One `name: sample` pair of a generated selection. */
  function SampleArgument(a: Argument): string {
    a.name + ": " + GenerateSampleValue(a)
  }

  function SampleArguments(args: seq<Argument>): (r: seq<string>)
    ensures |r| == |args|
    ensures forall i | 0 <= i < |args| :: r[i] == SampleArgument(args[i])
  {
    if args == [] then [] else [SampleArgument(args[0])] + SampleArguments(args[1..])
  }

  /** `generateQuerySelection`: the name, with sample values for the required
      arguments only. */
  function GenerateQuerySelection(f: Field): string {
    var required := RequiredArguments(f.arguments);
    if required == [] then f.name
    else f.name + "(" + Join(SampleArguments(required), ", ") + ")"
  }

  /** Optional arguments never appear in a generated selection: adding one
      leaves the selection unchanged. */
  lemma OptionalArgumentsIgnored(f: Field, a: Argument)
    requires !IsRequired(a)
    ensures GenerateQuerySelection(AddArgument(f, a)) == GenerateQuerySelection(f)
  {
    var g := AddArgument(f, a);
    RequiredArgumentsAppend(f.arguments, [a]);
    assert RequiredArguments([a]) == [] + RequiredArguments([a][1..]) == [];
    assert RequiredArguments(f.arguments) + [] == RequiredArguments(f.arguments);
    assert RequiredArguments(g.arguments) == RequiredArguments(f.arguments);
  }
}
