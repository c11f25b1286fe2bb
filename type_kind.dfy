/** The GraphQL type kinds of the schema model (GripTypeKind). */
module TypeKinds {
  import opened Wrappers
  import opened Text

  datatype Kind = SCALAR | OBJECT | INTERFACE | UNION | ENUM | INPUT_OBJECT | LIST | NON_NULL
  {
    /** Leaf kinds end a selection. */
    predicate IsLeaf() { this == SCALAR || this == ENUM }

    /** Composite kinds need a selection set. */
    predicate IsComposite() { this == OBJECT || this == INTERFACE || this == UNION }

    /** Kinds that may appear as argument types. */
    predicate IsInput() { this == SCALAR || this == ENUM || this == INPUT_OBJECT }

    /** Wrapper kinds modify another type instead of naming one. */
    predicate IsWrapper() { this == LIST || this == NON_NULL }
  }

  /** The constant's name, as `Enum.name()` gives it. */
  function KindName(k: Kind): string {
    match k
    case SCALAR => "SCALAR"
    case OBJECT => "OBJECT"
    case INTERFACE => "INTERFACE"
    case UNION => "UNION"
    case ENUM => "ENUM"
    case INPUT_OBJECT => "INPUT_OBJECT"
    case LIST => "LIST"
    case NON_NULL => "NON_NULL"
  }

  /** The kind whose name is the upper-cased `u`, OBJECT when there is none. */
  function KindOfUpper(u: string): (k: Kind)
    ensures k != OBJECT ==> u == KindName(k)
  {
    if u == "SCALAR" then SCALAR
    else if u == "OBJECT" then OBJECT
    else if u == "INTERFACE" then INTERFACE
    else if u == "UNION" then UNION
    else if u == "ENUM" then ENUM
    else if u == "INPUT_OBJECT" then INPUT_OBJECT
    else if u == "LIST" then LIST
    else if u == "NON_NULL" then NON_NULL
    else OBJECT
  }

  /** `fromIntrospection`: case-insensitive name lookup; null and unknown names are OBJECT. */
  function FromIntrospection(value: Option<string>): (k: Kind)
    ensures value.None? ==> k == OBJECT
    ensures k != OBJECT ==> value.Some? && ToUpper(value.value) == KindName(k)
  {
    match value
    case None => OBJECT
    case Some(v) => KindOfUpper(ToUpper(v))
  }

  /** Leaf and composite kinds never overlap, every leaf kind is an input kind,
      and a wrapper kind is none of leaf, composite or input. */
  lemma KindClassesDisjoint(k: Kind)
    ensures !(k.IsLeaf() && k.IsComposite())
    ensures k.IsLeaf() ==> k.IsInput()
    ensures k.IsWrapper() ==> !k.IsLeaf() && !k.IsComposite() && !k.IsInput()
    ensures k.IsLeaf() <==> (k == SCALAR || k == ENUM)
    ensures k.IsComposite() <==> (k == OBJECT || k == INTERFACE || k == UNION)
  {
  }

  lemma UpperIdempotent(s: string)
    ensures ToUpper(ToUpper(s)) == ToUpper(s)
  {
  }

  /** Every kind is recovered from its own name, in any letter case. */
  lemma FromIntrospectionOfName(k: Kind, s: string)
    requires ToUpper(s) == KindName(k)
    ensures FromIntrospection(Some(s)) == k
  {
  }

  /** Matching ignores letter case. */
  lemma FromIntrospectionIgnoresCase(s: string)
    ensures FromIntrospection(Some(s)) == FromIntrospection(Some(ToUpper(s)))
    ensures FromIntrospection(Some(s)) == FromIntrospection(Some(ToLower(s)))
  {
    UpperIdempotent(s);
    UpperOfLower(s);
  }

  lemma UpperOfLower(s: string)
    ensures ToUpper(ToLower(s)) == ToUpper(s)
  {
    assert forall i | 0 <= i < |s| :: UpperChar(LowerChar(s[i])) == UpperChar(s[i]);
  }

  /** A name that is no kind's name, in any case, maps to OBJECT. */
  lemma FromIntrospectionUnknown(s: string)
    requires forall k: Kind :: ToUpper(s) != KindName(k)
    ensures FromIntrospection(Some(s)) == OBJECT
  {
    assert ToUpper(s) != KindName(SCALAR);
  }
}
