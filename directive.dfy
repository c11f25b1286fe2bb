/** Directive definitions (GripDirective) and their locations. */
module Directives {
  import opened Wrappers
  import opened Text
  import opened Arguments

  /** `GripDirective.Location`, in declaration order. */
  datatype Location =
    | QUERY | MUTATION | SUBSCRIPTION | FIELD | FRAGMENT_DEFINITION
    | FRAGMENT_SPREAD | INLINE_FRAGMENT | VARIABLE_DEFINITION
    | SCHEMA | SCALAR | OBJECT | FIELD_DEFINITION | ARGUMENT_DEFINITION
    | INTERFACE | UNION | ENUM | ENUM_VALUE | INPUT_OBJECT | INPUT_FIELD_DEFINITION

  /** `Location.name()`. */
  function LocationName(l: Location): string {
    match l
    case QUERY => "QUERY"
    case MUTATION => "MUTATION"
    case SUBSCRIPTION => "SUBSCRIPTION"
    case FIELD => "FIELD"
    case FRAGMENT_DEFINITION => "FRAGMENT_DEFINITION"
    case FRAGMENT_SPREAD => "FRAGMENT_SPREAD"
    case INLINE_FRAGMENT => "INLINE_FRAGMENT"
    case VARIABLE_DEFINITION => "VARIABLE_DEFINITION"
    case SCHEMA => "SCHEMA"
    case SCALAR => "SCALAR"
    case OBJECT => "OBJECT"
    case FIELD_DEFINITION => "FIELD_DEFINITION"
    case ARGUMENT_DEFINITION => "ARGUMENT_DEFINITION"
    case INTERFACE => "INTERFACE"
    case UNION => "UNION"
    case ENUM => "ENUM"
    case ENUM_VALUE => "ENUM_VALUE"
    case INPUT_OBJECT => "INPUT_OBJECT"
    case INPUT_FIELD_DEFINITION => "INPUT_FIELD_DEFINITION"
  }

  /** `Location.valueOf`: exact, case-sensitive; None where Java throws
      IllegalArgumentException. */
  function LocationOf(s: string): (r: Option<Location>)
    ensures r.Some? ==> LocationName(r.value) == s
  {
    if s == "QUERY" then Some(QUERY)
    else if s == "MUTATION" then Some(MUTATION)
    else if s == "SUBSCRIPTION" then Some(SUBSCRIPTION)
    else if s == "FIELD" then Some(FIELD)
    else if s == "FRAGMENT_DEFINITION" then Some(FRAGMENT_DEFINITION)
    else if s == "FRAGMENT_SPREAD" then Some(FRAGMENT_SPREAD)
    else if s == "INLINE_FRAGMENT" then Some(INLINE_FRAGMENT)
    else if s == "VARIABLE_DEFINITION" then Some(VARIABLE_DEFINITION)
    else if s == "SCHEMA" then Some(SCHEMA)
    else if s == "SCALAR" then Some(SCALAR)
    else if s == "OBJECT" then Some(OBJECT)
    else if s == "FIELD_DEFINITION" then Some(FIELD_DEFINITION)
    else if s == "ARGUMENT_DEFINITION" then Some(ARGUMENT_DEFINITION)
    else if s == "INTERFACE" then Some(INTERFACE)
    else if s == "UNION" then Some(UNION)
    else if s == "ENUM" then Some(ENUM)
    else if s == "ENUM_VALUE" then Some(ENUM_VALUE)
    else if s == "INPUT_OBJECT" then Some(INPUT_OBJECT)
    else if s == "INPUT_FIELD_DEFINITION" then Some(INPUT_FIELD_DEFINITION)
    else None
  }

  /** `valueOf(l.name()) == l` for every location. */
  lemma LocationRoundTrip(l: Location)
    ensures LocationOf(LocationName(l)) == Some(l)
  {
    match l {
      case QUERY =>
      case MUTATION =>
      case SUBSCRIPTION =>
      case FIELD =>
      case FRAGMENT_DEFINITION =>
      case FRAGMENT_SPREAD =>
      case INLINE_FRAGMENT =>
      case VARIABLE_DEFINITION =>
      case SCHEMA =>
      case SCALAR =>
      case OBJECT =>
      case FIELD_DEFINITION =>
      case ARGUMENT_DEFINITION =>
      case INTERFACE =>
      case UNION =>
      case ENUM =>
      case ENUM_VALUE =>
      case INPUT_OBJECT =>
      case INPUT_FIELD_DEFINITION =>
    }
  }

  datatype Directive = Directive(
    name: string,
    description: Option<string>,
    arguments: seq<Argument>,
    locations: seq<Location>,
    isRepeatable: bool)

  /** No location is listed twice. */
  predicate Distinct(ls: seq<Location>) {
    forall i, j | 0 <= i < j < |ls| :: ls[i] != ls[j]
  }

  /** `new GripDirective(name)`. */
  function NewDirective(name: string): (d: Directive)
    ensures d.name == name && d.arguments == [] && d.locations == [] && !d.isRepeatable
  {
    Directive(name, None, [], [], false)
  }

  function SetDescription(d: Directive, description: Option<string>): (r: Directive)
    ensures r.description == description && r.name == d.name && r.locations == d.locations && r.arguments == d.arguments
    ensures r == d.(description := description)
  {
    d.(description := description)
  }

  function SetRepeatable(d: Directive, repeatable: bool): (r: Directive)
    ensures r.isRepeatable == repeatable && r.name == d.name && r.locations == d.locations && r.arguments == d.arguments
    ensures r == d.(isRepeatable := repeatable)
  {
    d.(isRepeatable := repeatable)
  }

  /** `addArgument`: appends without deduplication. */
  function AddArgument(d: Directive, a: Argument): (r: Directive)
    ensures r.arguments == d.arguments + [a] && r.locations == d.locations && r.name == d.name
    ensures r == d.(arguments := d.arguments + [a])
  {
    d.(arguments := d.arguments + [a])
  }

  /** `addLocation`: appends a location unless it is already listed. */
  function AddLocation(d: Directive, l: Location): (r: Directive)
    ensures Distinct(d.locations) ==> Distinct(r.locations)
    ensures forall m :: m in r.locations <==> m in d.locations || m == l
    ensures d.locations <= r.locations
    ensures r.name == d.name && r.arguments == d.arguments
    ensures r.description == d.description && r.isRepeatable == d.isRepeatable
  {
    if l in d.locations then d else d.(locations := d.locations + [l])
  }

  /** `isValidAt`. */
  predicate IsValidAt(d: Directive, l: Location) {
    l in d.locations
  }

  /** Adding locations one by one keeps the first occurrence of each, and
      the directive is then valid exactly at the locations added. */
  function AddLocations(d: Directive, ls: seq<Location>): (r: Directive)
    decreases |ls|
  {
    if ls == [] then d else AddLocations(AddLocation(d, ls[0]), ls[1..])
  }

  lemma {:induction false} AddLocationsValidAt(d: Directive, ls: seq<Location>)
    requires Distinct(d.locations)
    ensures Distinct(AddLocations(d, ls).locations)
    ensures forall l :: IsValidAt(AddLocations(d, ls), l) <==> IsValidAt(d, l) || l in ls
    decreases |ls|
  {
    if ls != [] {
      AddLocationsValidAt(AddLocation(d, ls[0]), ls[1..]);
      forall l | l in ls ensures l == ls[0] || l in ls[1..] {
        var i :| 0 <= i < |ls| && ls[i] == l;
        if i > 0 { assert ls[1..][i - 1] == l; }
      }
    }
  }

  const BuiltInDirectiveNames: set<string> := {"skip", "include", "deprecated", "specifiedBy"}

  /** `isBuiltIn`. */
  predicate IsBuiltIn(d: Directive) {
    d.name in BuiltInDirectiveNames
  }

  function LocationNames(ls: seq<Location>): (r: seq<string>)
    ensures |r| == |ls| && forall i | 0 <= i < |ls| :: r[i] == LocationName(ls[i])
  {
    if ls == [] then [] else [LocationName(ls[0])] + LocationNames(ls[1..])
  }

  /** `toGraphQLString`: `directive @name`, then `(args)` if any, ` repeatable`
      if set, and ` on A | B` if there are locations. */
  function DirectiveToGraphQLString(d: Directive): (r: string)
    ensures StartsWith(r, "directive @" + d.name)
    ensures d.arguments == [] && !d.isRepeatable && d.locations == [] ==> r == "directive @" + d.name
    ensures d.locations == [] && d.isRepeatable ==> EndsWith(r, " repeatable")
    ensures r == "directive @" + d.name
      + (if d.arguments == [] then "" else "(" + Join(ArgumentTexts(d.arguments), ", ") + ")")
      + (if d.isRepeatable then " repeatable" else "")
      + (if d.locations == [] then "" else " on " + Join(LocationNames(d.locations), " | "))
  {
    var head := "directive @" + d.name;
    var args := if d.arguments == [] then "" else "(" + Join(ArgumentTexts(d.arguments), ", ") + ")";
    var rep := if d.isRepeatable then " repeatable" else "";
    var locs := if d.locations == [] then "" else " on " + Join(LocationNames(d.locations), " | ");
    var r := head + args + rep + locs;
    assert r[..|head|] == head;
    assert d.locations == [] ==> r == (head + args) + rep;
    r
  }
}
