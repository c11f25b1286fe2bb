/** Arguments of fields and directives (GripArgument). */
module Arguments {
  import opened Wrappers
  import opened Text
  import opened TypeKinds
  import opened TypeRefs

  /** `typ` and `defaultValue` are Java references that may be null. */
  datatype Argument = Argument(name: string, typ: Option<TypeRef>, description: Option<string>, defaultValue: Option<string>)

  /** `new GripArgument(name, type)`: no description and no default. */
  function NewArgument(name: string, typ: Option<TypeRef>): (a: Argument)
    ensures a.name == name && a.typ == typ && !HasDefaultValue(a)
  {
    Argument(name, typ, None, None)
  }

  function SetType(a: Argument, typ: Option<TypeRef>): (r: Argument)
    ensures r.typ == typ && r.name == a.name && r.defaultValue == a.defaultValue
    ensures r == a.(typ := typ)
  {
    a.(typ := typ)
  }

  function SetDescription(a: Argument, description: Option<string>): (r: Argument)
    ensures r.description == description && r.name == a.name && r.typ == a.typ
    ensures r == a.(description := description)
  {
    a.(description := description)
  }

  function SetDefaultValue(a: Argument, value: Option<string>): (r: Argument)
    ensures r.defaultValue == value && r.name == a.name && r.typ == a.typ
    ensures r == a.(defaultValue := value)
  {
    a.(defaultValue := value)
  }

  predicate HasDefaultValue(a: Argument) {
    a.defaultValue.Some?
  }

  /** A caller must supply the argument: its type is known and non-null and it has no default. */
  predicate IsRequired(a: Argument) {
    a.typ.Some? && a.typ.value.isNonNull && !HasDefaultValue(a)
  }

  /** `equals`: arguments are the same when their names are. */
  predicate SameArgument(a: Argument, b: Argument) {
    a.name == b.name
  }

  /** The type text an argument prints: the reference's spelling or "Unknown". */
  function TypeText(t: Option<TypeRef>): string {
    if t.Some? then ToGraphQLString(t.value) else "Unknown"
  }

  /** `toGraphQLString`: `name: T`, then ` = default` only when there is one. */
  function ArgumentToGraphQLString(a: Argument): (r: string)
    ensures StartsWith(r, a.name + ": ")
    ensures a.defaultValue.None? ==> r == a.name + ": " + TypeText(a.typ)
    ensures a.defaultValue.Some? ==> EndsWith(r, " = " + a.defaultValue.value)
    ensures a.defaultValue.Some? ==> r == a.name + ": " + TypeText(a.typ) + " = " + a.defaultValue.value
  {
    var head := a.name + ": " + TypeText(a.typ);
    var r := if a.defaultValue.Some? then head + " = " + a.defaultValue.value else head;
    assert r[..|a.name| + 2] == head[..|a.name| + 2] == a.name + ": ";
    r
  }

  /** The argument texts of an argument list, in order. */
  function ArgumentTexts(args: seq<Argument>): (r: seq<string>)
    ensures |r| == |args|
    ensures forall i | 0 <= i < |args| :: r[i] == ArgumentToGraphQLString(args[i])
  {
    if args == [] then [] else [ArgumentToGraphQLString(args[0])] + ArgumentTexts(args[1..])
  }

  /** Without a default value, an argument whose type is a plain reference is
      required exactly when its printed signature ends in `!`. */
  lemma RequiredShowsInSignature(a: Argument)
    requires a.defaultValue.None?
    requires a.typ.Some? ==> PlainName(a.typ.value.name) && (a.typ.value.isNonNullItem ==> a.typ.value.isList)
    ensures IsRequired(a) <==> EndsWithChar(ArgumentToGraphQLString(a), '!')
  {
    var r := ArgumentToGraphQLString(a);
    var t := TypeText(a.typ);
    assert r[|r| - 1] == t[|t| - 1];
    if a.typ.Some? {
      var ty := a.typ.value;
      var n := ty.name;
      PrintedForm(ty);
      assert n[|n| - 1] != '!';
      var inner := Bang(n, ty.isNonNullItem);
      assert !ty.isList ==> inner == n;
    } else {
      assert t == "Unknown";
    }
  }

  /** A default value makes any argument optional. */
  lemma DefaultMakesOptional(a: Argument, value: string)
    ensures !IsRequired(SetDefaultValue(a, Some(value)))
    ensures SameArgument(a, SetDefaultValue(a, Some(value)))
  {
  }

  /** `generateSampleValue`: a literal for the five built-in scalars, then by kind. */
  function GenerateSampleValue(a: Argument): (r: string)
    ensures a.typ.None? ==> r == "null"
    ensures a.typ.Some? && a.typ.value.name in {"String", "ID"} ==> r == "\"sample\""
    ensures a.typ.Some? && a.typ.value.name == "Int" ==> r == "1"
    ensures a.typ.Some? && a.typ.value.name == "Float" ==> r == "1.0"
    ensures a.typ.Some? && a.typ.value.name == "Boolean" ==> r == "true"
    ensures a.typ.Some? && a.typ.value.name !in BuiltInScalars ==>
      r == (if a.typ.value.kind == ENUM then "ENUM_VALUE" else if a.typ.value.kind == INPUT_OBJECT then "{}" else "null")
  {
    if a.typ.None? then "null"
    else
      var t := a.typ.value;
      if t.name == "String" || t.name == "ID" then "\"sample\""
      else if t.name == "Int" then "1"
      else if t.name == "Float" then "1.0"
      else if t.name == "Boolean" then "true"
      else if t.kind == ENUM then "ENUM_VALUE"
      else if t.kind == INPUT_OBJECT then "{}"
      else "null"
  }

  /** The sample for a built-in scalar depends on the name alone, and it is a
      GraphQL literal of that scalar (never "null"). */
  lemma SampleOfBuiltInScalar(a: Argument)
    requires a.typ.Some? && a.typ.value.name in BuiltInScalars
    ensures GenerateSampleValue(a) != "null"
    ensures forall k: Kind :: GenerateSampleValue(a.(typ := Some(a.typ.value.(kind := k)))) == GenerateSampleValue(a)
  {
  }
}
