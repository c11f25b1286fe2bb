/** The schema container (GripSchema): types keyed by name in insertion
    order, directives, the root type names and the cached SDL text. */
module Schemas {
  import opened Wrappers
  import opened Text
  import opened TypeKinds
  import opened Fields
  import opened Directives
  import opened GripTypes

  type TypeMap = map<string, GripType>

  /** Every field of every stored type carries a type reference. */
  predicate FieldsTyped(types: TypeMap) {
    forall n, f | n in types && f in types[n].fields :: f.typ.Some?
  }

  /** The last element of a path, "" for the empty one. */
  function Last(p: seq<string>): string {
    if p == [] then "" else p[|p| - 1]
  }

  /** `types.values()` of a LinkedHashMap: the values in first-insertion order of their keys. */
  function ValuesInOrder(order: seq<string>, types: TypeMap): (r: seq<GripType>)
    requires forall n | n in order :: n in types
    ensures |r| == |order| && forall i | 0 <= i < |order| :: r[i] == types[order[i]]
    decreases |order|
  {
    if order == [] then [] else ValuesInOrder(order[..|order| - 1], types) + [types[order[|order| - 1]]]
  }

  lemma ValuesInOrderSnoc(order: seq<string>, i: nat, types: TypeMap)
    requires i < |order| && forall n | n in order :: n in types
    ensures ValuesInOrder(order[..i + 1], types) == ValuesInOrder(order[..i], types) + [types[order[i]]]
  {
    assert order[..i + 1][..i] == order[..i];
  }

  /** Re-putting a stored name replaces its value where it stands: every
      other position keeps its type and the order of names is unchanged. */
  lemma PutKeepsPosition(order: seq<string>, types: TypeMap, t: GripType)
    requires forall n | n in order :: n in types
    requires t.name in types
    ensures var vs := ValuesInOrder(order, types[t.name := t]);
      |vs| == |order| &&
      forall i | 0 <= i < |order| :: vs[i] == if order[i] == t.name then t else ValuesInOrder(order, types)[i]
  {
  }

  /** The types of one kind, in map order (`getTypesByKind`). */
  function TypesOfKind(vs: seq<GripType>, k: Kind): (r: seq<GripType>)
    decreases |vs|
  {
    if vs == [] then []
    else
      var init, last := vs[..|vs| - 1], vs[|vs| - 1];
      TypesOfKind(init, k) + (if last.kind == k then [last] else [])
  }

  lemma TypesOfKindSnoc(vs: seq<GripType>, t: GripType, k: Kind)
    ensures TypesOfKind(vs + [t], k) == TypesOfKind(vs, k) + (if t.kind == k then [t] else [])
  {
    assert (vs + [t])[..|vs|] == vs;
  }

  /** Neither an introspection type nor a built-in scalar. */
  predicate IsUserType(t: GripType) {
    !IsIntrospectionType(t) && !IsBuiltInScalar(t)
  }

  /** `getUserTypes`. */
  function UserTypes(vs: seq<GripType>): (r: seq<GripType>)
    decreases |vs|
  {
    if vs == [] then []
    else
      var init, last := vs[..|vs| - 1], vs[|vs| - 1];
      UserTypes(init) + (if IsUserType(last) then [last] else [])
  }

  lemma UserTypesSnoc(vs: seq<GripType>, t: GripType)
    ensures UserTypes(vs + [t]) == UserTypes(vs) + (if IsUserType(t) then [t] else [])
  {
    assert (vs + [t])[..|vs|] == vs;
  }

  /** An object type with no field yet that is not built in. */
  predicate IsUnexplored(t: GripType) {
    t.kind == Kind.OBJECT && !HasFields(t) && !IsBuiltInScalar(t) && !IsIntrospectionType(t)
  }

  /** `getUnexploredTypes`. */
  function UnexploredTypes(vs: seq<GripType>): (r: seq<GripType>)
    decreases |vs|
  {
    if vs == [] then []
    else
      var init, last := vs[..|vs| - 1], vs[|vs| - 1];
      UnexploredTypes(init) + (if IsUnexplored(last) then [last] else [])
  }

  lemma UnexploredTypesSnoc(vs: seq<GripType>, t: GripType)
    ensures UnexploredTypes(vs + [t]) == UnexploredTypes(vs) + (if IsUnexplored(t) then [t] else [])
  {
    assert (vs + [t])[..|vs|] == vs;
  }

  /** `getTypesByKind`, `getUserTypes` and `getUnexploredTypes` keep exactly
      the types that pass their test, in map order. */
  lemma {:induction false} FiltersKeepExactly(vs: seq<GripType>, k: Kind)
    ensures forall t :: t in TypesOfKind(vs, k) <==> t in vs && t.kind == k
    ensures forall t :: t in UserTypes(vs) <==> t in vs && IsUserType(t)
    ensures forall t :: t in UnexploredTypes(vs) <==> t in vs && IsUnexplored(t)
    decreases |vs|
  {
    if vs != [] {
      var init, last := vs[..|vs| - 1], vs[|vs| - 1];
      assert vs == init + [last];
      FiltersKeepExactly(init, k);
      TypesOfKindSnoc(init, last, k);
      UserTypesSnoc(init, last);
      UnexploredTypesSnoc(init, last);
    }
  }

  /** An unexplored type is a user type of kind OBJECT with no fields. */
  lemma UnexploredAreUserObjects(vs: seq<GripType>)
    ensures forall t | t in UnexploredTypes(vs) :: t in UserTypes(vs) && t in TypesOfKind(vs, Kind.OBJECT) && t.fields == []
  {
    FiltersKeepExactly(vs, Kind.OBJECT);
  }

  /** Sum of the field-list lengths. */
  function FieldCount(vs: seq<GripType>): nat
    decreases |vs|
  {
    if vs == [] then 0 else FieldCount(vs[..|vs| - 1]) + |vs[|vs| - 1].fields|
  }

  lemma FieldCountSnoc(vs: seq<GripType>, t: GripType)
    ensures FieldCount(vs + [t]) == FieldCount(vs) + |t.fields|
  {
    assert (vs + [t])[..|vs|] == vs;
  }

  /** Only types that hold fields add to the field count. */
  lemma {:induction false} FieldCountZero(vs: seq<GripType>)
    ensures FieldCount(vs) == 0 <==> forall i | 0 <= i < |vs| :: vs[i].fields == []
    decreases |vs|
  {
    if vs != [] {
      FieldCountZero(vs[..|vs| - 1]);
    }
  }

  /** A distinct list has as many elements as its set. */
  lemma {:induction false} DistinctCard(s: seq<string>)
    requires NoDup(s)
    ensures |set x | x in s| == |s|
    decreases |s|
  {
    if s != [] {
      var init := s[..|s| - 1];
      DistinctCard(init);
      assert (set x | x in s) == (set x | x in init) + {s[|s| - 1]};
      assert s[|s| - 1] !in init;
    }
  }

  /** The `schema { ... }` block: one line per set root name. */
  function RootLine(prefix: string, name: Option<string>): string {
    if name.Some? then prefix + name.value + "\n" else ""
  }

  function SchemaHeader(q: Option<string>, m: Option<string>, s: Option<string>): string {
    "schema {\n" + RootLine("  query: ", q) + RootLine("  mutation: ", m) + RootLine("  subscription: ", s) + "}\n\n"
  }

  /** A type's contribution to the schema SDL: its own SDL and a blank line,
      for user types only. */
  function TypeBlock(t: GripType): string {
    if IsUserType(t) then SDL(t) + "\n\n" else ""
  }

  function TypeBlocks(vs: seq<GripType>): string
    decreases |vs|
  {
    if vs == [] then "" else TypeBlocks(vs[..|vs| - 1]) + TypeBlock(vs[|vs| - 1])
  }

  lemma TypeBlocksSnoc(vs: seq<GripType>, t: GripType)
    ensures TypeBlocks(vs + [t]) == TypeBlocks(vs) + TypeBlock(t)
  {
    assert (vs + [t])[..|vs|] == vs;
  }

  /** A directive's line in the schema SDL, for non-built-in directives only. */
  function DirectiveLine(d: Directive): string {
    if IsBuiltIn(d) then "" else DirectiveToGraphQLString(d) + "\n"
  }

  function DirectiveLines(ds: seq<Directive>): string
    decreases |ds|
  {
    if ds == [] then "" else DirectiveLines(ds[..|ds| - 1]) + DirectiveLine(ds[|ds| - 1])
  }

  lemma DirectiveLinesSnoc(ds: seq<Directive>, d: Directive)
    ensures DirectiveLines(ds + [d]) == DirectiveLines(ds) + DirectiveLine(d)
  {
    assert (ds + [d])[..|ds|] == ds;
  }

  function CustomDirectives(ds: seq<Directive>): (r: seq<Directive>)
    decreases |ds|
  {
    if ds == [] then []
    else
      var init, last := ds[..|ds| - 1], ds[|ds| - 1];
      CustomDirectives(init) + (if IsBuiltIn(last) then [] else [last])
  }

  lemma CustomDirectivesSnoc(ds: seq<Directive>, d: Directive)
    ensures CustomDirectives(ds + [d]) == CustomDirectives(ds) + (if IsBuiltIn(d) then [] else [d])
  {
    assert (ds + [d])[..|ds|] == ds;
  }

  lemma {:induction false} CustomDirectivesKeepExactly(ds: seq<Directive>)
    ensures forall d :: d in CustomDirectives(ds) <==> d in ds && !IsBuiltIn(d)
    decreases |ds|
  {
    if ds != [] {
      var init, last := ds[..|ds| - 1], ds[|ds| - 1];
      assert ds == init + [last];
      CustomDirectivesKeepExactly(init);
      CustomDirectivesSnoc(init, last);
    }
  }

  /** `toSDL` of a whole schema, as a value. */
  function SchemaSDL(q: Option<string>, m: Option<string>, s: Option<string>, vs: seq<GripType>, ds: seq<Directive>): string {
    SchemaHeader(q, m, s) + TypeBlocks(vs) + DirectiveLines(ds)
  }

  /** The SDL renders exactly the user types: introspection types and
      built-in scalars contribute nothing. */
  lemma {:induction false} OnlyUserTypesRendered(vs: seq<GripType>)
    ensures TypeBlocks(vs) == TypeBlocks(UserTypes(vs))
    decreases |vs|
  {
    if vs != [] {
      var init, last := vs[..|vs| - 1], vs[|vs| - 1];
      OnlyUserTypesRendered(init);
      var u := UserTypes(init);
      assert TypeBlocks(vs) == TypeBlocks(init) + TypeBlock(last);
      if IsUserType(last) {
        assert UserTypes(vs) == u + [last];
        TypeBlocksSnoc(u, last);
      } else {
        assert UserTypes(vs) == u + [];
        assert u + [] == u;
        assert TypeBlock(last) == "";
        assert TypeBlocks(init) + "" == TypeBlocks(init);
      }
    }
  }

  /** The SDL renders exactly the custom directives: skip, include,
      deprecated and specifiedBy contribute nothing. */
  lemma {:induction false} OnlyCustomDirectivesRendered(ds: seq<Directive>)
    ensures DirectiveLines(ds) == DirectiveLines(CustomDirectives(ds))
    decreases |ds|
  {
    if ds != [] {
      var init, last := ds[..|ds| - 1], ds[|ds| - 1];
      OnlyCustomDirectivesRendered(init);
      var c := CustomDirectives(init);
      assert DirectiveLines(ds) == DirectiveLines(init) + DirectiveLine(last);
      if !IsBuiltIn(last) {
        assert CustomDirectives(ds) == c + [last];
        DirectiveLinesSnoc(c, last);
      } else {
        assert CustomDirectives(ds) == c + [];
        assert c + [] == c;
        assert DirectiveLine(last) == "";
        assert DirectiveLines(init) + "" == DirectiveLines(init);
      }
    }
  }

  /** `b` is the declared return type name of a field named `f` of the stored type `a`. */
  predicate Edge(types: TypeMap, a: string, f: string, b: string) {
    a in types && exists fld | fld in types[a].fields :: fld.name == f && fld.typ.Some? && fld.typ.value.name == b
  }

  /** type, field, type, ..., type: every field is declared on the type
      before it and returns the type after it. */
  predicate IsPath(types: TypeMap, p: seq<string>)
    decreases |p|
  {
    |p| == 1 || (|p| >= 3 && IsPath(types, p[..|p| - 2]) && Edge(types, p[|p| - 3], p[|p| - 2], p[|p| - 1]))
  }

  lemma IsPathExtend(types: TypeMap, p: seq<string>, f: string, b: string)
    requires IsPath(types, p) && |p| > 0 && Edge(types, Last(p), f, b)
    ensures IsPath(types, p + [f, b]) && (p + [f, b])[0] == p[0] && Last(p + [f, b]) == b
  {
    var q := p + [f, b];
    assert q[..|q| - 2] == p;
  }

  /** Every name a field of a stored type returns. */
  function Targets(types: TypeMap): set<string> {
    set a, fld | a in types && fld in types[a].fields && fld.typ.Some? :: fld.typ.value.name
  }

  /** No field of a stored type in `s` leads out of `s`. */
  predicate ClosedUnder(types: TypeMap, s: set<string>) {
    forall a, fld | a in s && a in types && fld in types[a].fields && fld.typ.Some? :: fld.typ.value.name in s
  }

  lemma {:induction false} PathStaysInClosedSet(types: TypeMap, s: set<string>, p: seq<string>)
    requires ClosedUnder(types, s) && |p| > 0 && IsPath(types, p) && p[0] in s
    ensures Last(p) in s
    decreases |p|
  {
    if |p| > 1 {
      var pre := p[..|p| - 2];
      PathStaysInClosedSet(types, s, pre);
      var a := p[|p| - 3];
      assert a == Last(pre);
      var fld :| fld in types[a].fields && fld.name == p[|p| - 2] && fld.typ.Some? && fld.typ.value.name == p[|p| - 1];
    }
  }

  /** The last names of the queued paths. */
  function Ends(queue: seq<seq<string>>): set<string> {
    set i | 0 <= i < |queue| :: Last(queue[i])
  }

  lemma EndsPop(queue: seq<seq<string>>)
    requires queue != []
    ensures Ends(queue) == {Last(queue[0])} + Ends(queue[1..])
  {
    forall x | x in Ends(queue) ensures x in {Last(queue[0])} + Ends(queue[1..]) {
      var i :| 0 <= i < |queue| && Last(queue[i]) == x;
      if i > 0 { assert queue[1..][i - 1] == queue[i]; }
    }
    forall x | x in Ends(queue[1..]) ensures x in Ends(queue) {
      var i :| 0 <= i < |queue| - 1 && Last(queue[1..][i]) == x;
      assert queue[i + 1] == queue[1..][i];
    }
  }

  lemma EndsPush(queue: seq<seq<string>>, p: seq<string>)
    ensures Ends(queue + [p]) == Ends(queue) + {Last(p)}
  {
    var q := queue + [p];
    assert q[|queue|] == p;
    forall x | x in Ends(queue) ensures x in Ends(q) {
      var i :| 0 <= i < |queue| && Last(queue[i]) == x;
      assert q[i] == queue[i];
    }
  }

  class Schema {
    var queryTypeName: Option<string>
    var mutationTypeName: Option<string>
    var subscriptionTypeName: Option<string>
    /** The LinkedHashMap: `types` holds the entries, `order` the keys in first-insertion order. */
    var types: TypeMap
    var order: seq<string>
    var directives: seq<Directive>
    var sourceEndpoint: Option<string>
    var sdlCache: Option<string>
    var isPartial: bool
    var isReconstructed: bool

    /** Keys and order agree and every type is stored under its own name. */
    ghost predicate Indexed()
      reads this
    {
      (forall n :: n in order <==> n in types) &&
      NoDup(order) &&
      (forall n | n in types :: types[n].name == n)
    }

    /** The type map is indexed, and a cached SDL is the SDL of the current contents. */
    ghost predicate Valid()
      reads this
    {
      Indexed() &&
      (sdlCache.Some? ==> sdlCache.value == SchemaSDL(queryTypeName, mutationTypeName, subscriptionTypeName,
                                                     ValuesInOrder(order, types), directives))
    }

    /** `getAllTypes()`, in insertion order. */
    function Values(): seq<GripType>
      reads this
      requires forall n | n in order :: n in types
    {
      ValuesInOrder(order, types)
    }

    /** The text `toSDL` produces for the current contents. */
    function Render(): string
      reads this
      requires forall n | n in order :: n in types
    {
      SchemaSDL(queryTypeName, mutationTypeName, subscriptionTypeName, Values(), directives)
    }

    /** `new GripSchema()`: no types, no directives, not partial. */
    constructor ()
      ensures Valid()
      ensures types == map[] && order == [] && directives == [] && sdlCache.None?
      ensures queryTypeName.None? && mutationTypeName.None? && subscriptionTypeName.None?
      ensures !isPartial && !isReconstructed
    {
      queryTypeName, mutationTypeName, subscriptionTypeName := None, None, None;
      types, order, directives := map[], [], [];
      sourceEndpoint, sdlCache := None, None;
      isPartial, isReconstructed := false, false;
    }

    method SetQueryTypeName(name: Option<string>)
      requires Valid()
      modifies this
      ensures Valid() && queryTypeName == name && sdlCache.None?
      ensures mutationTypeName == old(mutationTypeName) && subscriptionTypeName == old(subscriptionTypeName)
      ensures types == old(types) && order == old(order) && directives == old(directives)
      ensures isPartial == old(isPartial) && isReconstructed == old(isReconstructed) && sourceEndpoint == old(sourceEndpoint)
    {
      queryTypeName := name;
      sdlCache := None;
    }

    method SetMutationTypeName(name: Option<string>)
      requires Valid()
      modifies this
      ensures Valid() && mutationTypeName == name && sdlCache.None?
      ensures queryTypeName == old(queryTypeName) && subscriptionTypeName == old(subscriptionTypeName)
      ensures types == old(types) && order == old(order) && directives == old(directives)
      ensures isPartial == old(isPartial) && isReconstructed == old(isReconstructed) && sourceEndpoint == old(sourceEndpoint)
    {
      mutationTypeName := name;
      sdlCache := None;
    }

    method SetSubscriptionTypeName(name: Option<string>)
      requires Valid()
      modifies this
      ensures Valid() && subscriptionTypeName == name && sdlCache.None?
      ensures queryTypeName == old(queryTypeName) && mutationTypeName == old(mutationTypeName)
      ensures types == old(types) && order == old(order) && directives == old(directives)
      ensures isPartial == old(isPartial) && isReconstructed == old(isReconstructed) && sourceEndpoint == old(sourceEndpoint)
    {
      subscriptionTypeName := name;
      sdlCache := None;
    }

    /** `setSourceEndpoint`, `setPartial`, `setReconstructed`: plain setters
        that leave the cache alone, since the SDL does not show them. */
    method SetSourceEndpoint(endpoint: Option<string>)
      requires Valid()
      modifies this
      ensures Valid() && sourceEndpoint == endpoint && sdlCache == old(sdlCache)
      ensures types == old(types) && order == old(order) && directives == old(directives)
      ensures queryTypeName == old(queryTypeName) && mutationTypeName == old(mutationTypeName)
      ensures subscriptionTypeName == old(subscriptionTypeName)
      ensures isPartial == old(isPartial) && isReconstructed == old(isReconstructed)
    {
      sourceEndpoint := endpoint;
    }

    method SetPartial(partial: bool)
      requires Valid()
      modifies this
      ensures Valid() && isPartial == partial && isReconstructed == old(isReconstructed)
      ensures types == old(types) && order == old(order) && sdlCache == old(sdlCache)
      ensures queryTypeName == old(queryTypeName) && mutationTypeName == old(mutationTypeName)
      ensures directives == old(directives) && subscriptionTypeName == old(subscriptionTypeName)
      ensures sourceEndpoint == old(sourceEndpoint)
    {
      isPartial := partial;
    }

    method SetReconstructed(reconstructed: bool)
      requires Valid()
      modifies this
      ensures Valid() && isReconstructed == reconstructed && isPartial == old(isPartial)
      ensures types == old(types) && order == old(order) && sdlCache == old(sdlCache)
      ensures queryTypeName == old(queryTypeName) && mutationTypeName == old(mutationTypeName)
      ensures directives == old(directives) && subscriptionTypeName == old(subscriptionTypeName)
      ensures sourceEndpoint == old(sourceEndpoint)
    {
      isReconstructed := reconstructed;
    }

    /** `addType`: puts the type under its name; a new name goes last, a
        known one keeps its place. The cached SDL is dropped. */
    method AddType(t: GripType)
      requires Valid()
      modifies this
      ensures Valid() && sdlCache.None?
      ensures types == old(types)[t.name := t]
      ensures order == if t.name in old(types) then old(order) else old(order) + [t.name]
      ensures directives == old(directives) && isPartial == old(isPartial) && isReconstructed == old(isReconstructed)
      ensures queryTypeName == old(queryTypeName) && mutationTypeName == old(mutationTypeName)
      ensures subscriptionTypeName == old(subscriptionTypeName) && sourceEndpoint == old(sourceEndpoint)
    {
      if t.name !in types {
        order := order + [t.name];
      }
      types := types[t.name := t];
      sdlCache := None;
    }

    /** `getType`. */
    function GetType(name: string): (r: Option<GripType>)
      reads this
      requires Indexed()
      ensures r.Some? <==> name in order
      ensures r.Some? ==> r.value.name == name && r.value in Values()
    {
      if name in types then Some(types[name]) else None
    }

    /** The fields of the stored type a root name names; empty when the
        name is unset or names no stored type. */
    function RootFields(name: Option<string>): (r: seq<Field>)
      reads this
      ensures name.None? || name.value !in types ==> r == []
      ensures name.Some? && name.value in types ==> r == types[name.value].fields
    {
      if name.Some? && name.value in types then types[name.value].fields else []
    }

    /** `getQueries`, `getMutations`, `getSubscriptions`. */
    function Queries(): seq<Field> reads this { RootFields(queryTypeName) }
    function Mutations(): seq<Field> reads this { RootFields(mutationTypeName) }
    function Subscriptions(): seq<Field> reads this { RootFields(subscriptionTypeName) }

    /** `addDirective`: appends and drops the cached SDL. */
    method AddDirective(d: Directive)
      requires Valid()
      modifies this
      ensures Valid() && sdlCache.None? && directives == old(directives) + [d]
      ensures types == old(types) && order == old(order)
      ensures queryTypeName == old(queryTypeName) && mutationTypeName == old(mutationTypeName)
      ensures subscriptionTypeName == old(subscriptionTypeName) && sourceEndpoint == old(sourceEndpoint)
      ensures isPartial == old(isPartial) && isReconstructed == old(isReconstructed)
    {
      directives := directives + [d];
      sdlCache := None;
    }

    /** `getDirective`: the first directive with the given name, or null. */
    method GetDirective(name: string) returns (r: Option<Directive>)
      ensures r.Some? ==> exists i | 0 <= i < |directives| ::
        directives[i] == r.value && r.value.name == name &&
        forall j | 0 <= j < i :: directives[j].name != name
      ensures r.None? <==> forall i | 0 <= i < |directives| :: directives[i].name != name
    {
      for i := 0 to |directives|
        invariant forall j | 0 <= j < i :: directives[j].name != name
      {
        if directives[i].name == name {
          return Some(directives[i]);
        }
      }
      return None;
    }

    /** `getTypeCount`: the number of distinct type names, which is the
        length of the insertion order. */
    function TypeCount(): (r: nat)
      reads this
      requires Valid()
      ensures r == |order| == |Values()|
    {
      DistinctCard(order);
      assert (set x | x in order) == types.Keys;
      |types|
    }

    /** `getTypesByKind`: a loop over the map's values. */
    method GetTypesByKind(kind: Kind) returns (r: seq<GripType>)
      requires Valid()
      ensures r == TypesOfKind(Values(), kind)
    {
      r := [];
      for i := 0 to |order|
        invariant r == TypesOfKind(ValuesInOrder(order[..i], types), kind)
      {
        var t := types[order[i]];
        ValuesInOrderSnoc(order, i, types);
        TypesOfKindSnoc(ValuesInOrder(order[..i], types), t, kind);
        if t.kind == kind {
          r := r + [t];
        }
      }
      assert order[..|order|] == order;
    }

    /** `getUserTypes`. */
    method GetUserTypes() returns (r: seq<GripType>)
      requires Valid()
      ensures r == UserTypes(Values())
    {
      r := [];
      for i := 0 to |order|
        invariant r == UserTypes(ValuesInOrder(order[..i], types))
      {
        var t := types[order[i]];
        ValuesInOrderSnoc(order, i, types);
        UserTypesSnoc(ValuesInOrder(order[..i], types), t);
        if !IsIntrospectionType(t) && !IsBuiltInScalar(t) {
          r := r + [t];
        }
      }
      assert order[..|order|] == order;
    }

    /** `getUnexploredTypes`. */
    method GetUnexploredTypes() returns (r: seq<GripType>)
      requires Valid()
      ensures r == UnexploredTypes(Values())
    {
      r := [];
      for i := 0 to |order|
        invariant r == UnexploredTypes(ValuesInOrder(order[..i], types))
      {
        var t := types[order[i]];
        ValuesInOrderSnoc(order, i, types);
        UnexploredTypesSnoc(ValuesInOrder(order[..i], types), t);
        if t.kind == Kind.OBJECT && !HasFields(t) && !IsBuiltInScalar(t) && !IsIntrospectionType(t) {
          r := r + [t];
        }
      }
      assert order[..|order|] == order;
    }

    /** `getTotalFieldCount`. */
    method GetTotalFieldCount() returns (count: nat)
      requires Valid()
      ensures count == FieldCount(Values())
    {
      count := 0;
      for i := 0 to |order|
        invariant count == FieldCount(ValuesInOrder(order[..i], types))
      {
        var t := types[order[i]];
        ValuesInOrderSnoc(order, i, types);
        FieldCountSnoc(ValuesInOrder(order[..i], types), t);
        count := count + |t.fields|;
      }
      assert order[..|order|] == order;
    }

    /** `findPathToType`: breadth-first search from the query type over
        field return types. A non-empty result is a path from the query type
        to the target; an empty one means no such path exists. */
    method FindPathToType(target: string) returns (r: seq<string>)
      ensures r != [] ==> queryTypeName.Some? && r[0] == queryTypeName.value && Last(r) == target && IsPath(types, r)
      ensures r == [] ==> forall p | |p| > 0 && IsPath(types, p) && queryTypeName.Some? && p[0] == queryTypeName.value ::
                            Last(p) != target
    {
      if queryTypeName.None? {
        return [];
      }
      r := SearchFrom(types, queryTypeName.value, target);
    }

    /** `toSDL`: the cached text when there is one, otherwise the text built
        from the root names, the user types in map order and the custom
        directives, which is then cached. */
    method ToSDL() returns (r: string)
      requires Valid()
      modifies this
      ensures Valid() && r == Render() && sdlCache == Some(r)
      ensures types == old(types) && order == old(order) && directives == old(directives)
      ensures queryTypeName == old(queryTypeName) && mutationTypeName == old(mutationTypeName)
      ensures subscriptionTypeName == old(subscriptionTypeName)
      ensures isPartial == old(isPartial) && isReconstructed == old(isReconstructed)
    {
      if sdlCache.Some? {
        return sdlCache.value;
      }
      var header := BuildSchemaHeader(queryTypeName, mutationTypeName, subscriptionTypeName);
      var blocks := BuildTypeBlocks(order, types);
      var lines := BuildDirectiveLines(directives);
      r := header + blocks + lines;
      sdlCache := Some(r);
    }
  }

  /** The breadth-first search of `findPathToType` from a known root. */
  method SearchFrom(types: TypeMap, root: string, target: string) returns (r: seq<string>)
    ensures r != [] ==> r[0] == root && Last(r) == target && IsPath(types, r)
    ensures r == [] ==> forall p | |p| > 0 && IsPath(types, p) && p[0] == root :: Last(p) != target
  {
    var queue: seq<seq<string>> := [[root]];
    var visited: set<string> := {};
    EndsPush([], [root]);
    assert [] + [[root]] == queue;
    ghost var universe := Targets(types) + {root};
    while queue != []
      invariant SearchState(types, root, target, universe, visited, queue)
      decreases |universe - visited|, |queue|
    {
      var found;
      found, visited, queue := Step(types, root, target, universe, visited, queue);
      if found.Some? {
        return found.value;
      }
    }
    Exhausted(types, root, target, universe, visited);
    return [];
  }

  /** One round of the search: pop the head path; answer it if it reaches
      the target, drop it if its end is visited or not stored, otherwise mark
      the end visited and queue one longer path per field of an unvisited type. */
  method Step(types: TypeMap, root: string, target: string, ghost universe: set<string>,
              visited: set<string>, queue: seq<seq<string>>)
    returns (found: Option<seq<string>>, visited': set<string>, queue': seq<seq<string>>)
    requires SearchState(types, root, target, universe, visited, queue) && queue != []
    requires Targets(types) <= universe
    ensures found.Some? ==>
      found.value != [] && found.value[0] == root && Last(found.value) == target && IsPath(types, found.value)
    ensures found.None? ==> SearchState(types, root, target, universe, visited', queue')
    ensures found.None? ==>
      |universe - visited'| < |universe - visited| || (visited' == visited && |queue'| < |queue|)
  {
    var path := queue[0];
    var current := path[|path| - 1];
    PopFacts(types, root, target, universe, visited, queue);
    if current == target {
      return Some(path), visited, queue;
    }
    if current in visited {
      assert visited + {current} == visited;
      return None, visited, queue[1..];
    }
    VisitShrinks(universe, visited, current);
    if current !in types {
      return None, visited + {current}, queue[1..];
    }
    var q := Expand(types, root, path, visited + {current}, queue[1..]);
    ExpandFacts(types, root, target, universe, visited, queue, q);
    return None, visited + {current}, q;
  }

  /** The loop invariant of the search. */
  predicate SearchState(types: TypeMap, root: string, target: string, universe: set<string>,
                        visited: set<string>, queue: seq<seq<string>>)
  {
    PathsFrom(types, root, queue) &&
    visited <= universe && Ends(queue) <= universe &&
    target !in visited &&
    (root in visited || root in Ends(queue)) &&
    Frontier(types, visited, queue)
  }

  /** What popping the head of the queue gives: a path from the root to
      `Last(queue[0])`, and the state without that path, with its end marked
      visited when it is already visited or not stored. */
  lemma PopFacts(types: TypeMap, root: string, target: string, universe: set<string>,
                 visited: set<string>, queue: seq<seq<string>>)
    requires SearchState(types, root, target, universe, visited, queue) && queue != []
    ensures |queue[0]| > 0 && IsPath(types, queue[0]) && queue[0][0] == root
    ensures Last(queue[0]) == queue[0][|queue[0]| - 1] && Last(queue[0]) in universe
    ensures Last(queue[0]) != target && (Last(queue[0]) in visited || Last(queue[0]) !in types) ==>
      SearchState(types, root, target, universe, visited + {Last(queue[0])}, queue[1..])
    ensures PathsFrom(types, root, queue[1..])
  {
    EndsPop(queue);
    PathsFromTail(types, root, queue);
    if Last(queue[0]) in visited || Last(queue[0]) !in types {
      FrontierPop(types, visited, queue);
    }
  }

  /** Expanding an unvisited stored type keeps the invariant with it visited. */
  lemma ExpandFacts(types: TypeMap, root: string, target: string, universe: set<string>,
                    visited: set<string>, queue: seq<seq<string>>, q: seq<seq<string>>)
    requires SearchState(types, root, target, universe, visited, queue) && queue != []
    requires Last(queue[0]) != target && Last(queue[0]) in types
    requires PathsFrom(types, root, q)
    requires Ends(queue[1..]) <= Ends(q) <= Ends(queue[1..]) + Targets(types)
    requires Targets(types) <= universe
    requires var c := Last(queue[0]);
      forall fld | fld in types[c].fields && fld.typ.Some? ::
        fld.typ.value.name in visited + {c} || fld.typ.value.name in Ends(q)
    ensures SearchState(types, root, target, universe, visited + {Last(queue[0])}, q)
  {
    EndsPop(queue);
    FrontierExpand(types, visited, queue, q);
  }

  /** With nothing left to search, the visited set is closed under fields,
      holds the root and misses the target: no path reaches the target. */
  lemma Exhausted(types: TypeMap, root: string, target: string, universe: set<string>, visited: set<string>)
    requires SearchState(types, root, target, universe, visited, [])
    ensures forall p | |p| > 0 && IsPath(types, p) && p[0] == root :: Last(p) != target
  {
    assert ClosedUnder(types, visited);
    forall p | |p| > 0 && IsPath(types, p) && p[0] == root
      ensures Last(p) != target
    {
      PathStaysInClosedSet(types, visited, p);
    }
  }

  /** Every queued path starts at `root` and follows real fields. */
  predicate PathsFrom(types: TypeMap, root: string, queue: seq<seq<string>>) {
    forall k | 0 <= k < |queue| :: |queue[k]| > 0 && IsPath(types, queue[k]) && queue[k][0] == root
  }

  /** Each field of a visited type leads to a visited type or to the end of a queued path. */
  predicate Frontier(types: TypeMap, visited: set<string>, queue: seq<seq<string>>) {
    forall a, fld | a in visited && a in types && fld in types[a].fields && fld.typ.Some? ::
      fld.typ.value.name in visited || fld.typ.value.name in Ends(queue)
  }

  /** Marking one more name of the universe visited leaves fewer unvisited. */
  lemma VisitShrinks(universe: set<string>, visited: set<string>, c: string)
    requires c in universe && c !in visited
    ensures |universe - (visited + {c})| < |universe - visited|
  {
    var t := universe - (visited + {c});
    assert universe - visited == t + {c};
  }

  lemma PathsFromTail(types: TypeMap, root: string, queue: seq<seq<string>>)
    requires PathsFrom(types, root, queue) && queue != []
    ensures PathsFrom(types, root, queue[1..])
  {
    forall k | 0 <= k < |queue| - 1
      ensures |queue[1..][k]| > 0 && IsPath(types, queue[1..][k]) && queue[1..][k][0] == root
    {
      assert queue[1..][k] == queue[k + 1];
    }
  }

  /** Popping a path whose last type is already visited, or is not stored,
      keeps the frontier property with that type marked visited. */
  lemma FrontierPop(types: TypeMap, visited: set<string>, queue: seq<seq<string>>)
    requires Frontier(types, visited, queue) && queue != []
    requires Last(queue[0]) in visited || Last(queue[0]) !in types
    ensures Frontier(types, visited + {Last(queue[0])}, queue[1..])
  {
    EndsPop(queue);
  }

  /** Popping a path to a stored, unvisited type and queueing its fields
      keeps the frontier property with that type marked visited. */
  lemma FrontierExpand(types: TypeMap, visited: set<string>, queue: seq<seq<string>>, q: seq<seq<string>>)
    requires Frontier(types, visited, queue) && queue != []
    requires Ends(queue[1..]) <= Ends(q)
    requires var c := Last(queue[0]);
      forall fld | c in types && fld in types[c].fields && fld.typ.Some? ::
        fld.typ.value.name in visited + {c} || fld.typ.value.name in Ends(q)
    ensures Frontier(types, visited + {Last(queue[0])}, q)
  {
    EndsPop(queue);
  }

  /** The inner loop of `findPathToType`: queue `path + [field, type]` for each
      field of the path's last type whose type has not been visited. */
  method Expand(types: TypeMap, root: string, path: seq<string>, visited: set<string>, queue: seq<seq<string>>)
    returns (q: seq<seq<string>>)
    requires |path| > 0 && IsPath(types, path) && path[0] == root && Last(path) in types
    requires PathsFrom(types, root, queue)
    ensures PathsFrom(types, root, q)
    ensures Ends(queue) <= Ends(q) <= Ends(queue) + Targets(types)
    ensures forall fld | fld in types[Last(path)].fields && fld.typ.Some? ::
      fld.typ.value.name in visited || fld.typ.value.name in Ends(q)
  {
    var fields := types[Last(path)].fields;
    q := queue;
    for i := 0 to |fields|
      invariant PathsFrom(types, root, q)
      invariant Ends(queue) <= Ends(q) <= Ends(queue) + Targets(types)
      invariant forall j | 0 <= j < i :: fields[j].typ.Some? ==>
        fields[j].typ.value.name in visited || fields[j].typ.value.name in Ends(q)
    {
      var field := fields[i];
      if field.typ.Some? && field.typ.value.name !in visited {
        var next := path + [field.name, field.typ.value.name];
        assert Edge(types, Last(path), field.name, field.typ.value.name);
        IsPathExtend(types, path, field.name, field.typ.value.name);
        EndsPush(q, next);
        assert field.typ.value.name in Targets(types);
        q := q + [next];
      }
    }
  }

  /** The `schema { ... }` block, appended line by line. */
  method BuildSchemaHeader(q: Option<string>, m: Option<string>, s: Option<string>) returns (r: string)
    ensures r == SchemaHeader(q, m, s)
  {
    r := "schema {\n";
    if q.Some? {
      r := r + ("  query: " + q.value + "\n");
    }
    assert r == "schema {\n" + RootLine("  query: ", q);
    ghost var withQuery := r;
    if m.Some? {
      r := r + ("  mutation: " + m.value + "\n");
    }
    assert r == withQuery + RootLine("  mutation: ", m);
    ghost var withMutation := r;
    if s.Some? {
      r := r + ("  subscription: " + s.value + "\n");
    }
    assert r == withMutation + RootLine("  subscription: ", s);
    r := r + "}\n\n";
  }

  /** The loop over the map's values: each user type's SDL and a blank line. */
  method BuildTypeBlocks(order: seq<string>, types: TypeMap) returns (r: string)
    requires forall n | n in order :: n in types
    ensures r == TypeBlocks(ValuesInOrder(order, types))
  {
    r := "";
    for i := 0 to |order|
      invariant r == TypeBlocks(ValuesInOrder(order[..i], types))
    {
      var t := types[order[i]];
      ValuesInOrderSnoc(order, i, types);
      TypeBlocksSnoc(ValuesInOrder(order[..i], types), t);
      if !IsIntrospectionType(t) && !IsBuiltInScalar(t) {
        var sdl := GripTypes.ToSDL(t);
        r := r + (sdl + "\n\n");
      } else {
        assert r + TypeBlock(t) == r;
      }
    }
    assert order[..|order|] == order;
  }

  /** The loop over the directives: each custom directive's text and a newline. */
  method BuildDirectiveLines(ds: seq<Directive>) returns (r: string)
    ensures r == DirectiveLines(ds)
  {
    r := "";
    for j := 0 to |ds|
      invariant r == DirectiveLines(ds[..j])
    {
      TakeSnoc(ds, j);
      DirectiveLinesSnoc(ds[..j], ds[j]);
      r := AppendDirective(r, ds[j]);
    }
    assert ds[..|ds|] == ds;
  }

  lemma TakeSnoc<T>(s: seq<T>, j: nat)
    requires j < |s|
    ensures s[..j + 1] == s[..j] + [s[j]]
  {
  }

  /** One round of the directive loop: built-in directives are skipped. */
  method AppendDirective(r0: string, d: Directive) returns (r: string)
    ensures r == r0 + DirectiveLine(d)
  {
    r := r0;
    if !IsBuiltIn(d) {
      r := r + (DirectiveToGraphQLString(d) + "\n");
    } else {
      assert r + DirectiveLine(d) == r;
    }
  }
}
