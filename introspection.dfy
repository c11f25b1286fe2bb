/** Reading a standard introspection result into the schema model
    (IntrospectionHandler): type references, types, fields, arguments,
    enum values, directives and the schema that holds them. A Gson call that
    would raise an exception makes the whole read `Thrown`. */
module Introspection {
  import opened Wrappers
  import Text
  import opened Json
  import opened TypeKinds
  import opened TypeRefs
  import Arguments
  import Fields
  import EnumValues
  import Directives
  import GripTypes
  import Schemas

  // ---------------------------------------------------------------------
  // Member readers shared by the parsers.

  /** `has(k) ? get(k).getAsBoolean() : <skip>`. */
  function OptBoolean(o: Members, key: string): (r: Outcome<Option<bool>>)
    ensures !Has(o, key) ==> r == Ok(None)
    ensures r.Ok? && r.value.Some? ==> GetAsBoolean(Get(o, key).value) == Ok(r.value.value)
  {
    match Get(o, key)
    case None => Ok(None)
    case Some(v) =>
      var b :- GetAsBoolean(v);
      Ok(Some(b))
  }

  /** A member's value is structurally smaller than the object holding it. */
  lemma MemberSmaller(o: Members, key: string, m: Members)
    requires Get(o, key) == Some(JObj(m))
    ensures JObj(m) < JObj(o)
  {
    var i :| 0 <= i < |o| && o[i] == (key, JObj(m));
    assert o[i] < JObj(o);
    assert o[i].1 < o[i];
  }

  // ---------------------------------------------------------------------
  // Type references: `parseTypeRef`.

  /** The kinds whose `ofType` the parser follows. */
  predicate IsWrapperKind(kind: Option<string>) {
    kind == Some("NON_NULL") || kind == Some("LIST")
  }

  /** A node read on its own: its name with its introspection kind and no
      wrapper flags, or nothing without a name. */
  function Plain(kind: Option<string>, name: Option<string>): Outcome<Option<TypeRef>> {
    if name.Some? then Ok(Some(TypeRef(name.value, FromIntrospection(kind), false, false, false))) else Ok(None)
  }

  /** What a wrapper makes of the reference it wraps: NON_NULL marks it
      non-null; LIST makes it a nullable list whose items are non-null when
      the wrapped reference was. */
  function Wrap(kind: string, inner: TypeRef): TypeRef {
    if kind == "NON_NULL" then inner.(isNonNull := true)
    else inner.(isList := true, isNonNull := false, isNonNullItem := inner.isNonNull)
  }

  /** `parseTypeRef` on an object. Whatever the depth of the chain, the
      result carries one list level at most: non-null items imply a list. */
  function ParseTypeNode(o: Members): (r: Outcome<Option<TypeRef>>)
    ensures r.Ok? && r.value.Some? && r.value.value.isNonNullItem ==> r.value.value.isList
    decreases JObj(o)
  {
    var kind :- StringIfPresent(o, "kind");
    var name :- OptString(o, "name");
    if IsWrapperKind(kind) && HasNonNull(o, "ofType") then
      var ofType :- GetAsJsonObject(o, "ofType");
      if ofType.None? then Plain(kind, name)
      else
        MemberSmaller(o, "ofType", ofType.value);
        var inner :- ParseTypeNode(ofType.value);
        if inner.Some? then Ok(Some(Wrap(kind.value, inner.value))) else Plain(kind, name)
    else Plain(kind, name)
  }

  /** `parseTypeRef`: null gives null. */
  function ParseTypeRef(t: Option<Members>): (r: Outcome<Option<TypeRef>>)
    ensures t.None? ==> r == Ok(None)
    ensures t.Some? ==> r == ParseTypeNode(t.value)
  {
    if t.None? then Ok(None) else ParseTypeNode(t.value)
  }

  /** `parseTypeRef(json.getAsJsonObject("type"))`. */
  function TypeMember(o: Members): Outcome<Option<TypeRef>> {
    var t :- GetAsJsonObject(o, "type");
    ParseTypeRef(t)
  }

  /** Introspection nodes as servers send them. */
  function NamedNode(kind: string, name: string): Members {
    [("kind", JStr(kind)), ("name", JStr(name)), ("ofType", JNull)]
  }

  function WrapperNode(kind: string, inner: Members): Members {
    [("kind", JStr(kind)), ("name", JNull), ("ofType", JObj(inner))]
  }

  /** A named node of a non-wrapper kind is a plain reference of that kind. */
  lemma NamedNodeRead(kind: string, name: string)
    requires kind != "NON_NULL" && kind != "LIST"
    ensures ParseTypeNode(NamedNode(kind, name)) == Ok(Some(TypeRef(name, FromIntrospection(Some(kind)), false, false, false)))
  {
    var o := NamedNode(kind, name);
    assert Get(o, "kind") == Some(JStr(kind));
    assert Get(o, "name") == Some(JStr(name));
  }

  /** A node without a kind is an OBJECT reference. */
  lemma KindlessNodeIsObject(o: Members, name: string)
    requires !Has(o, "kind") && OptString(o, "name") == Ok(Some(name))
    ensures ParseTypeNode(o) == Ok(Some(TypeRef(name, OBJECT, false, false, false)))
  {
  }

  /** The reading of a wrapper node around `inner`. */
  lemma WrapperNodeRead(kind: string, inner: Members)
    requires kind == "NON_NULL" || kind == "LIST"
    ensures ParseTypeNode(WrapperNode(kind, inner)) ==
      match ParseTypeNode(inner)
      case Thrown => Thrown
      case Ok(None) => Ok(None)
      case Ok(Some(r)) => Ok(Some(Wrap(kind, r)))
  {
    var o := WrapperNode(kind, inner);
    assert o[1..][1..] == [("ofType", JObj(inner))];
    assert Get(o[1..][1..], "ofType") == Some(JObj(inner));
    assert Get(o[1..], "ofType") == Some(JObj(inner));
    assert Get(o, "kind") == Some(JStr(kind));
    assert Get(o, "name") == Some(JNull);
    assert Get(o, "ofType") == Some(JObj(inner));
  }

  /** NON_NULL keeps the wrapped reference's list flags and sets `isNonNull`. */
  lemma NonNullKeepsListFlags(inner: Members, r: TypeRef)
    requires ParseTypeNode(inner) == Ok(Some(r))
    ensures ParseTypeNode(WrapperNode("NON_NULL", inner)) == Ok(Some(TypeRef(r.name, r.kind, r.isList, true, r.isNonNullItem)))
  {
    WrapperNodeRead("NON_NULL", inner);
  }

  /** LIST gives a nullable list whose items are non-null exactly when the
      wrapped reference was. */
  lemma ListTakesItemNullability(inner: Members, r: TypeRef)
    requires ParseTypeNode(inner) == Ok(Some(r))
    ensures ParseTypeNode(WrapperNode("LIST", inner)) == Ok(Some(TypeRef(r.name, r.kind, true, false, r.isNonNull)))
  {
    WrapperNodeRead("LIST", inner);
  }

  /** `NON_NULL(LIST(NON_NULL(T)))` is `[T!]!`. */
  lemma NonNullListOfNonNull(kind: string, name: string)
    requires kind != "NON_NULL" && kind != "LIST"
    ensures var r := TypeRef(name, FromIntrospection(Some(kind)), true, true, true);
      ParseTypeNode(WrapperNode("NON_NULL", WrapperNode("LIST", WrapperNode("NON_NULL", NamedNode(kind, name))))) == Ok(Some(r))
  {
    var t := TypeRef(name, FromIntrospection(Some(kind)), false, false, false);
    NamedNodeRead(kind, name);
    var named := NamedNode(kind, name);
    NonNullKeepsListFlags(named, t);
    var nn := WrapperNode("NON_NULL", named);
    ListTakesItemNullability(nn, t.(isNonNull := true));
    NonNullKeepsListFlags(WrapperNode("LIST", nn), TypeRef(name, t.kind, true, false, true));
  }

  /** A list of lists reads as a single list: of a nullable reference,
      `LIST(LIST(x))` and `LIST(x)` give the same result. */
  lemma NestedListsFlatten(inner: Members, r: TypeRef)
    requires ParseTypeNode(inner) == Ok(Some(r)) && !r.isNonNull
    ensures ParseTypeNode(WrapperNode("LIST", WrapperNode("LIST", inner))) == ParseTypeNode(WrapperNode("LIST", inner))
  {
    ListTakesItemNullability(inner, r);
    ListTakesItemNullability(WrapperNode("LIST", inner), TypeRef(r.name, r.kind, true, false, false));
  }

  /** A wrapper whose `ofType` is missing or null and which has no name reads as null. */
  lemma BareWrapperIsNull(o: Members)
    requires StringIfPresent(o, "kind") == Ok(Some("NON_NULL")) || StringIfPresent(o, "kind") == Ok(Some("LIST"))
    requires !HasNonNull(o, "ofType") && OptString(o, "name") == Ok(None)
    ensures ParseTypeNode(o) == Ok(None)
  {
  }

  // ---------------------------------------------------------------------
  // Arrays of entries: the `for (JsonElement e : array)` loops.

  /** The entries an array loop collects: JSON nulls skipped when `skipNulls`
      (otherwise `getAsJsonObject` throws on them), every other entry read as
      an object and parsed, the ones that parse to null dropped. */
  function Collect<T>(items: seq<Json>, parse: Members -> Outcome<Option<T>>, skipNulls: bool): (r: Outcome<seq<T>>)
    ensures r.Ok? ==> |r.value| <= |items|
    decreases |items|
  {
    if items == [] then Ok([])
    else
      var front :- Collect(items[..|items| - 1], parse, skipNulls);
      var last := items[|items| - 1];
      if skipNulls && last == JNull then Ok(front)
      else
        var o :- AsObject(last);
        var x :- parse(o);
        Ok(if x.Some? then front + [x.value] else front)
  }

  /** The array loop itself. */
  method CollectLoop<T>(items: seq<Json>, parse: Members -> Outcome<Option<T>>, skipNulls: bool) returns (r: Outcome<seq<T>>)
    ensures r == Collect(items, parse, skipNulls)
  {
    var acc: seq<T> := [];
    for i := 0 to |items|
      invariant Collect(items[..i], parse, skipNulls) == Ok(acc)
    {
      assert items[..i + 1][..i] == items[..i];
      var e := items[i];
      if skipNulls && e == JNull {
        continue;
      }
      if !e.JObj? {
        CollectThrowsOnward(items, parse, skipNulls, i + 1);
        return Thrown;
      }
      var x := parse(e.members);
      if x.Thrown? {
        CollectThrowsOnward(items, parse, skipNulls, i + 1);
        return Thrown;
      }
      if x.value.Some? {
        acc := acc + [x.value.value];
      }
    }
    assert items[..|items|] == items;
    r := Ok(acc);
  }

  /** Once a prefix throws, every longer prefix does. */
  lemma {:induction false} CollectThrowsOnward<T>(items: seq<Json>, parse: Members -> Outcome<Option<T>>, skipNulls: bool, i: nat)
    requires 0 < i <= |items| && Collect(items[..i], parse, skipNulls).Thrown?
    ensures Collect(items, parse, skipNulls).Thrown?
    decreases |items| - i
  {
    if i < |items| {
      assert items[..i + 1][..i] == items[..i];
      CollectThrowsOnward(items, parse, skipNulls, i + 1);
    } else {
      assert items[..i] == items;
    }
  }

  /** The entries that are not JSON null, in order. */
  function NonNulls(items: seq<Json>): (r: seq<Json>)
    ensures |r| <= |items| && JNull !in r
    decreases |items|
  {
    if items == [] then []
    else NonNulls(items[..|items| - 1]) + (if items[|items| - 1] == JNull then [] else [items[|items| - 1]])
  }

  /** Skipping nulls is reading the non-null entries in their order. */
  lemma {:induction false} CollectSkipsNulls<T>(items: seq<Json>, parse: Members -> Outcome<Option<T>>)
    ensures Collect(items, parse, true) == Collect(NonNulls(items), parse, false)
    decreases |items|
  {
    if items != [] {
      var front, last := items[..|items| - 1], items[|items| - 1];
      CollectSkipsNulls(front, parse);
      if last != JNull {
        var n := NonNulls(items);
        assert n == NonNulls(front) + [last];
        assert n[..|n| - 1] == NonNulls(front) && n[|n| - 1] == last;
      } else {
        assert NonNulls(items) == NonNulls(front);
      }
    }
  }

  // ---------------------------------------------------------------------
  // Arguments, fields, enum values, types and directives.

  /** `parseArgument`: null without a name; otherwise the name, the type
      reference, and the description and default value when present and non-null. */
  function ParseArgument(o: Members): (r: Outcome<Option<Arguments.Argument>>)
  {
    var name :- StringIfPresent(o, "name");
    if name.None? then Ok(None)
    else
      var typ :- TypeMember(o);
      var description :- OptString(o, "description");
      var defaultValue :- OptString(o, "defaultValue");
      Ok(Some(Arguments.SetDefaultValue(Arguments.SetDescription(Arguments.NewArgument(name.value, typ), description), defaultValue)))
  }

  /** A parsed argument is required exactly when its type reads as non-null
      and no non-null default value is given. */
  lemma ParsedArgumentRequired(o: Members, a: Arguments.Argument)
    requires ParseArgument(o) == Ok(Some(a))
    ensures StringIfPresent(o, "name") == Ok(Some(a.name))
    ensures Arguments.IsRequired(a) <==>
      TypeMember(o).Ok? && TypeMember(o).value.Some? && TypeMember(o).value.value.isNonNull && !HasNonNull(o, "defaultValue")
  {
  }

  /** `parseField`: the name, type, description, deprecation flag and reason
      (a non-empty reason also sets the flag), then the arguments in order. */
  function ParseField(o: Members): (r: Outcome<Option<Fields.Field>>)
  {
    var name :- StringIfPresent(o, "name");
    if name.None? then Ok(None)
    else
      var typ :- TypeMember(o);
      var description :- OptString(o, "description");
      var deprecated :- OptBoolean(o, "isDeprecated");
      var reason :- OptString(o, "deprecationReason");
      var args :- Collect(ArrayMember(o, "args"), ParseArgument, true);
      var f0 := Fields.SetDescription(Fields.NewField(name.value, typ), description);
      var f1 := if deprecated.Some? then Fields.SetDeprecated(f0, deprecated.value) else f0;
      var f2 := if reason.Some? then Fields.SetDeprecationReason(f1, reason) else f1;
      Ok(Some(f2.(arguments := args)))
  }

  /** A field is deprecated when the flag says so, or when a non-empty
      reason is given; a field without either is not. */
  lemma ParsedFieldDeprecation(o: Members, f: Fields.Field)
    requires ParseField(o) == Ok(Some(f))
    ensures f.isDeprecated <==>
      OptBoolean(o, "isDeprecated") == Ok(Some(true)) ||
      (OptString(o, "deprecationReason").Ok? && OptString(o, "deprecationReason").value.Some? &&
       OptString(o, "deprecationReason").value.value != [])
    ensures f.arguments == Collect(ArrayMember(o, "args"), ParseArgument, true).value
  {
  }

  /** `parseInputField`: name, type reference and description only. */
  function ParseInputField(o: Members): (r: Outcome<Option<Fields.Field>>)
    ensures r.Ok? && r.value.Some? ==> r.value.value.arguments == [] && !r.value.value.isDeprecated
  {
    var name :- StringIfPresent(o, "name");
    if name.None? then Ok(None)
    else
      var typ :- TypeMember(o);
      var description :- OptString(o, "description");
      Ok(Some(Fields.SetDescription(Fields.NewField(name.value, typ), description)))
  }

  /** One enum value: `get("name").getAsString()` throws when the name is
      missing or null; then description, flag and reason as for fields. */
  function ParseEnumValue(o: Members): (r: Outcome<Option<EnumValues.EnumValue>>)
    ensures r.Ok? ==> r.value.Some? && Get(o, "name").Some? && GetAsString(Get(o, "name").value) == Ok(r.value.value.name)
  {
    var nameJson :- if Get(o, "name").Some? then Ok(Get(o, "name").value) else Thrown;
    var name :- GetAsString(nameJson);
    var description :- OptString(o, "description");
    var deprecated :- OptBoolean(o, "isDeprecated");
    var reason :- OptString(o, "deprecationReason");
    var v0 := EnumValues.SetDescription(EnumValues.NewEnumValue(name), description);
    var v1 := if deprecated.Some? then EnumValues.SetDeprecated(v0, deprecated.value) else v0;
    var v2 := if reason.Some? then EnumValues.SetDeprecationReason(v1, reason) else v1;
    Ok(Some(v2))
  }

  /** The three member loops of `parseType` on a type already named and kinded. */
  function WithMembers(o: Members, t: GripTypes.GripType): (r: Outcome<GripTypes.GripType>)
    ensures r.Ok? ==> r.value.name == t.name && r.value.kind == t.kind && r.value.description == t.description
    ensures r.Ok? ==> (Collect(ArrayMember(o, "fields"), ParseField, true) == Ok(r.value.fields)
      && Collect(ArrayMember(o, "enumValues"), ParseEnumValue, true) == Ok(r.value.enumValues))
  {
    var fields :- Collect(ArrayMember(o, "fields"), ParseField, true);
    var inputFields :- Collect(ArrayMember(o, "inputFields"), ParseInputField, true);
    var values :- Collect(ArrayMember(o, "enumValues"), ParseEnumValue, true);
    Ok(t.(fields := fields, inputFields := inputFields, enumValues := values))
  }

  /** `parseType`: null without a non-null name; the kind defaults to
      OBJECT; fields, input fields and enum values skip JSON nulls and keep their order. */
  function ParseType(o: Members): (r: Outcome<Option<GripTypes.GripType>>)
    ensures !HasNonNull(o, "name") ==> r == Ok(None)
    ensures r.Ok? && r.value.Some? ==> OptString(o, "name") == Ok(Some(r.value.value.name))
  {
    var name :- OptString(o, "name");
    if name.None? then Ok(None)
    else
      var kindText :- StringIfPresent(o, "kind");
      var kind := FromIntrospection(Some(kindText.GetOr("OBJECT")));
      var description :- OptString(o, "description");
      var t :- WithMembers(o, GripTypes.SetDescription(GripTypes.NewType(name.value, kind), description));
      Ok(Some(t))
  }

  /** A type without a kind member is an OBJECT type; otherwise the kind is
      read from the member's text, letter case ignored. */
  lemma ParsedTypeKind(o: Members, t: GripTypes.GripType)
    requires ParseType(o) == Ok(Some(t))
    ensures !Has(o, "kind") ==> t.kind == OBJECT
    ensures Has(o, "kind") ==> (StringIfPresent(o, "kind").Ok? &&
      t.kind == FromIntrospection(StringIfPresent(o, "kind").value))
  {
    KindOfObject();
  }

  lemma KindOfObject()
    ensures FromIntrospection(Some("OBJECT")) == OBJECT
  {
    FromIntrospectionOfName(OBJECT, "OBJECT");
  }

  /** The fields of a parsed type are those of its non-null field entries, in order. */
  lemma ParsedTypeFields(o: Members, t: GripTypes.GripType)
    requires ParseType(o) == Ok(Some(t))
    ensures Collect(NonNulls(ArrayMember(o, "fields")), ParseField, false) == Ok(t.fields)
    ensures Collect(NonNulls(ArrayMember(o, "enumValues")), ParseEnumValue, false) == Ok(t.enumValues)
  {
    var name := OptString(o, "name").value.value;
    var kindText := StringIfPresent(o, "kind").value;
    var t0 := GripTypes.SetDescription(GripTypes.NewType(name, FromIntrospection(Some(kindText.GetOr("OBJECT")))),
                                       OptString(o, "description").value);
    assert WithMembers(o, t0) == Ok(t);
    CollectSkipsNulls(ArrayMember(o, "fields"), ParseField);
    CollectSkipsNulls(ArrayMember(o, "enumValues"), ParseEnumValue);
  }

  /** The `locations` loop: each entry read as a string (throwing on a null
      or an object), names that are no location skipped, the others added
      without duplicates. */
  function AddLocationItems(d: Directives.Directive, items: seq<Json>): (r: Outcome<Directives.Directive>)
    ensures r.Ok? ==> r.value.name == d.name && r.value.arguments == d.arguments
    decreases |items|
  {
    if items == [] then Ok(d)
    else
      var front :- AddLocationItems(d, items[..|items| - 1]);
      var text :- GetAsString(items[|items| - 1]);
      match Directives.LocationOf(text)
      case None => Ok(front)
      case Some(l) => Ok(Directives.AddLocation(front, l))
  }

  /** Some entry of the `locations` array reads as the name of `l`. */
  predicate NamesLocation(items: seq<Json>, l: Directives.Location) {
    exists j | 0 <= j < |items| :: GetAsString(items[j]) == Ok(Directives.LocationName(l))
  }

  lemma NamesLocationSnoc(items: seq<Json>, l: Directives.Location)
    requires items != []
    ensures NamesLocation(items, l) <==>
      NamesLocation(items[..|items| - 1], l) || GetAsString(items[|items| - 1]) == Ok(Directives.LocationName(l))
  {
    var n := |items| - 1;
    if NamesLocation(items, l) {
      var j :| 0 <= j < |items| && GetAsString(items[j]) == Ok(Directives.LocationName(l));
      if j < n { assert items[..n][j] == items[j]; }
    }
    if NamesLocation(items[..n], l) {
      var j :| 0 <= j < n && GetAsString(items[..n][j]) == Ok(Directives.LocationName(l));
      assert items[j] == items[..n][j];
    }
  }

  /** The directive ends up valid exactly at the locations it had and those
      some entry names, each listed once. */
  lemma {:induction false} LocationItemsRead(d: Directives.Directive, items: seq<Json>)
    requires Directives.Distinct(d.locations) && AddLocationItems(d, items).Ok?
    ensures Directives.Distinct(AddLocationItems(d, items).value.locations)
    ensures forall l :: Directives.IsValidAt(AddLocationItems(d, items).value, l) <==>
      Directives.IsValidAt(d, l) || NamesLocation(items, l)
    decreases |items|
  {
    if items != [] {
      var n := |items| - 1;
      LocationItemsRead(d, items[..n]);
      var front := AddLocationItems(d, items[..n]).value;
      var text := GetAsString(items[n]).value;
      var r := AddLocationItems(d, items).value;
      forall l
        ensures Directives.IsValidAt(r, l) <==> Directives.IsValidAt(d, l) || NamesLocation(items, l)
      {
        NamesLocationSnoc(items, l);
        Directives.LocationRoundTrip(l);
        assert text == Directives.LocationName(l) <==> Directives.LocationOf(text) == Some(l);
      }
    }
  }

  /** `parseDirective`: null without a name; otherwise the description, the
      recognised locations once each, then the arguments in order. */
  function ParseDirective(o: Members): (r: Outcome<Option<Directives.Directive>>)
    ensures r.Ok? && r.value.Some? ==> StringIfPresent(o, "name") == Ok(Some(r.value.value.name))
  {
    var name :- StringIfPresent(o, "name");
    if name.None? then Ok(None)
    else
      var description :- OptString(o, "description");
      var d0 := Directives.SetDescription(Directives.NewDirective(name.value), description);
      var d1 :- AddLocationItems(d0, ArrayMember(o, "locations"));
      var args :- Collect(ArrayMember(o, "args"), ParseArgument, true);
      Ok(Some(d1.(arguments := args)))
  }

  /** A parsed directive lists each location once and is valid exactly at
      the locations its entries name. */
  lemma ParsedDirectiveLocations(o: Members, d: Directives.Directive)
    requires ParseDirective(o) == Ok(Some(d))
    ensures Directives.Distinct(d.locations)
    ensures forall l :: Directives.IsValidAt(d, l) <==> NamesLocation(ArrayMember(o, "locations"), l)
  {
    var name := StringIfPresent(o, "name").value.value;
    var d0 := Directives.SetDescription(Directives.NewDirective(name), OptString(o, "description").value);
    LocationItemsRead(d0, ArrayMember(o, "locations"));
  }

  // ---------------------------------------------------------------------
  // The whole result: `parseIntrospectionResult`.

  /** A root type's name: read only when the root object and its name are non-null. */
  function RootName(o: Members, key: string): (r: Outcome<Option<string>>)
    ensures !HasNonNull(o, key) ==> r == Ok(None)
  {
    if HasNonNull(o, key) then
      var root :- GetAsJsonObject(o, key);
      if root.None? then Ok(None) else OptString(root.value, "name")
    else Ok(None)
  }

  /** The types map after `addType` of each type in turn: the last type of
      each name wins. */
  function Stored(ts: seq<GripTypes.GripType>): (m: Schemas.TypeMap)
    ensures forall n | n in m :: m[n].name == n
    ensures forall k | 0 <= k < |ts| :: ts[k].name in m
    decreases |ts|
  {
    if ts == [] then map[]
    else Stored(ts[..|ts| - 1])[ts[|ts| - 1].name := ts[|ts| - 1]]
  }

  /** The insertion order after the same calls: each name where it first came. */
  function FirstNames(ts: seq<GripTypes.GripType>): (r: seq<string>)
    ensures Text.NoDup(r) && |r| <= |ts|
    ensures forall n :: n in r <==> n in Stored(ts)
    decreases |ts|
  {
    if ts == [] then []
    else
      var front := FirstNames(ts[..|ts| - 1]);
      var n := ts[|ts| - 1].name;
      if n in front then front else front + [n]
  }

  /** The `types` loop: `addType` for each parsed type, in order. */
  method AddTypes(schema: Schemas.Schema, ts: seq<GripTypes.GripType>)
    requires schema.Valid() && schema.types == map[] && schema.order == []
    modifies schema
    ensures schema.Valid() && schema.types == Stored(ts) && schema.order == FirstNames(ts)
    ensures schema.directives == old(schema.directives) && schema.sourceEndpoint == old(schema.sourceEndpoint)
    ensures schema.queryTypeName == old(schema.queryTypeName) && schema.mutationTypeName == old(schema.mutationTypeName)
    ensures schema.subscriptionTypeName == old(schema.subscriptionTypeName)
    ensures schema.isPartial == old(schema.isPartial) && schema.isReconstructed == old(schema.isReconstructed)
  {
    for i := 0 to |ts|
      invariant schema.Valid()
      invariant schema.types == Stored(ts[..i]) && schema.order == FirstNames(ts[..i])
      invariant schema.directives == old(schema.directives) && schema.sourceEndpoint == old(schema.sourceEndpoint)
      invariant schema.queryTypeName == old(schema.queryTypeName) && schema.mutationTypeName == old(schema.mutationTypeName)
      invariant schema.subscriptionTypeName == old(schema.subscriptionTypeName)
      invariant schema.isPartial == old(schema.isPartial) && schema.isReconstructed == old(schema.isReconstructed)
    {
      assert ts[..i + 1][..i] == ts[..i];
      schema.AddType(ts[i]);
    }
    assert ts[..|ts|] == ts;
  }

  /** The `directives` loop: `addDirective` for each parsed directive, in order. */
  method AddDirectives(schema: Schemas.Schema, ds: seq<Directives.Directive>)
    requires schema.Valid()
    modifies schema
    ensures schema.Valid() && schema.directives == old(schema.directives) + ds
    ensures schema.types == old(schema.types) && schema.order == old(schema.order)
    ensures schema.sourceEndpoint == old(schema.sourceEndpoint)
    ensures schema.queryTypeName == old(schema.queryTypeName) && schema.mutationTypeName == old(schema.mutationTypeName)
    ensures schema.subscriptionTypeName == old(schema.subscriptionTypeName)
    ensures schema.isPartial == old(schema.isPartial) && schema.isReconstructed == old(schema.isReconstructed)
  {
    for i := 0 to |ds|
      invariant schema.Valid() && schema.directives == old(schema.directives) + ds[..i]
      invariant schema.types == old(schema.types) && schema.order == old(schema.order)
      invariant schema.sourceEndpoint == old(schema.sourceEndpoint)
      invariant schema.queryTypeName == old(schema.queryTypeName) && schema.mutationTypeName == old(schema.mutationTypeName)
      invariant schema.subscriptionTypeName == old(schema.subscriptionTypeName)
      invariant schema.isPartial == old(schema.isPartial) && schema.isReconstructed == old(schema.isReconstructed)
    {
      assert ds[..i + 1] == ds[..i] + [ds[i]];
      schema.AddDirective(ds[i]);
    }
    assert ds[..|ds|] == ds;
  }

  /** Whether `parseIntrospectionResult` gets through without an exception. */
  predicate ReadsWithoutThrowing(o: Members) {
    RootName(o, "queryType").Ok? && RootName(o, "mutationType").Ok? && RootName(o, "subscriptionType").Ok?
    && Collect(ArrayMember(o, "types"), ParseType, false).Ok?
    && Collect(ArrayMember(o, "directives"), ParseDirective, false).Ok?
  }

  /** The schema `parseIntrospectionResult` returns, or `Thrown`: the root
      names that are given, every parsed type stored under its name (the last
      of a name wins, the first fixes its place), the parsed directives in
      order, the endpoint, and neither partial nor reconstructed. */
  method ParseIntrospectionResult(o: Members, endpoint: Option<string>) returns (r: Outcome<Schemas.Schema>)
    ensures r.Ok? <==> ReadsWithoutThrowing(o)
    ensures r.Ok? ==> (fresh(r.value) && r.value.Valid()
      && r.value.queryTypeName == RootName(o, "queryType").value
      && r.value.mutationTypeName == RootName(o, "mutationType").value
      && r.value.subscriptionTypeName == RootName(o, "subscriptionType").value
      && r.value.types == Stored(Collect(ArrayMember(o, "types"), ParseType, false).value)
      && r.value.order == FirstNames(Collect(ArrayMember(o, "types"), ParseType, false).value)
      && r.value.directives == Collect(ArrayMember(o, "directives"), ParseDirective, false).value
      && r.value.sourceEndpoint == endpoint && !r.value.isPartial && !r.value.isReconstructed)
  {
    var schema := new Schemas.Schema();
    schema.SetSourceEndpoint(endpoint);
    var q := RootName(o, "queryType");
    var m := RootName(o, "mutationType");
    var s := RootName(o, "subscriptionType");
    if q.Thrown? || m.Thrown? || s.Thrown? {
      return Thrown;
    }
    if q.value.Some? { schema.SetQueryTypeName(q.value); }
    if m.value.Some? { schema.SetMutationTypeName(m.value); }
    if s.value.Some? { schema.SetSubscriptionTypeName(s.value); }
    var types := CollectLoop(ArrayMember(o, "types"), ParseType, false);
    if types.Thrown? {
      return Thrown;
    }
    AddTypes(schema, types.value);
    var directives := CollectLoop(ArrayMember(o, "directives"), ParseDirective, false);
    if directives.Thrown? {
      return Thrown;
    }
    AddDirectives(schema, directives.value);
    r := Ok(schema);
  }
}
