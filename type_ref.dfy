/** References to types as fields and arguments use them (GripTypeRef): a base
    name, its kind and the three wrapper flags that spell `T`, `T!`, `[T]`,
    `[T!]`, `[T]!` and `[T!]!`. Structural equality of the datatype is the
    source's `equals` (name, kind and all three flags). */
module TypeRefs {
  import opened Wrappers
  import opened Text
  import opened TypeKinds

  datatype TypeRef = TypeRef(name: string, kind: Kind, isList: bool, isNonNull: bool, isNonNullItem: bool)

  const BuiltInScalars: set<string> := {"String", "Int", "Float", "Boolean", "ID"}
  const CommonCustomScalars: set<string> := {"ID", "URL", "URI", "UUID", "JSON", "HTML", "XML", "JWT", "AWS", "ISO"}

  /** `determineKind`: guess a kind from the bare name alone. */
  function DetermineKind(name: string): (k: Kind)
    ensures name in BuiltInScalars ==> k == SCALAR
    ensures k == SCALAR <==> name in BuiltInScalars || name in CommonCustomScalars
    ensures k != SCALAR ==> (k == INPUT_OBJECT <==> EndsWith(name, "Input"))
    ensures k == ENUM <==> k != SCALAR && !EndsWith(name, "Input") && LooksLikeEnum(name)
    ensures k == OBJECT <==>
      name !in BuiltInScalars && name !in CommonCustomScalars && !EndsWith(name, "Input") && !LooksLikeEnum(name)
  {
    if name in BuiltInScalars then SCALAR
    else if name in CommonCustomScalars then SCALAR
    else if EndsWith(name, "Input") then INPUT_OBJECT
    else if LooksLikeEnum(name) then ENUM
    else OBJECT
  }

  /** The enum guess: an `Enum` suffix, or an all-upper-case name longer than four characters. */
  predicate LooksLikeEnum(name: string) {
    EndsWith(name, "Enum") || (name == ToUpper(name) && |name| > 4)
  }

  /** Any name ending in `Input` is guessed to be an input object. */
  lemma {:induction false} InputSuffixGuess(n: string)
    ensures DetermineKind(n + "Input") == INPUT_OBJECT
  {
    var s := n + "Input";
    assert s[|s| - 5..] == "Input";
    NotAScalar(s, "Input");
  }

  /** Any name ending in `Enum` is guessed to be an enum. */
  lemma {:induction false} EnumSuffixGuess(n: string)
    ensures DetermineKind(n + "Enum") == ENUM
  {
    var s := n + "Enum";
    assert s[|s| - 4..] == "Enum";
    NotAScalar(s, "Enum");
    assert !EndsWith(s, "Input") by {
      if |s| >= 5 {
        assert s[|s| - 5..][4] == s[|s| - 1] == 'm';
      }
    }
  }

  /** No scalar name the guess knows ends in `Input` or `Enum`. */
  lemma NotAScalar(n: string, p: string)
    requires p == "Input" || p == "Enum"
    requires EndsWith(n, p)
    ensures n !in BuiltInScalars && n !in CommonCustomScalars
  {
    assert n[|n| - |p|] == n[|n| - |p|..][0] == p[0];
  }

  function Simple(name: string): (r: TypeRef)
    ensures r == TypeRef(name, DetermineKind(name), false, false, false)
    ensures ToGraphQLString(r) == name
  {
    TypeRef(name, DetermineKind(name), false, false, false)
  }

  function NonNull(name: string): (r: TypeRef)
    ensures r == TypeRef(name, DetermineKind(name), false, true, false)
    ensures ToGraphQLString(r) == name + "!"
  {
    TypeRef(name, DetermineKind(name), false, true, false)
  }

  function List(name: string, itemNonNull: bool, listNonNull: bool): (r: TypeRef)
    ensures ToGraphQLString(r) ==
      "[" + name + (if itemNonNull then "!" else "") + "]" + (if listNonNull then "!" else "")
    ensures r == TypeRef(name, DetermineKind(name), true, listNonNull, itemNonNull)
  {
    TypeRef(name, DetermineKind(name), true, listNonNull, itemNonNull)
  }

  function IsBuiltInScalar(r: TypeRef): bool {
    r.name in BuiltInScalars
  }

  /** `toGraphQLString`: the GraphQL spelling of the reference. */
  function ToGraphQLString(r: TypeRef): string {
    (if r.isList then "[" else "") + r.name + (if r.isNonNullItem then "!" else "")
      + (if r.isList then "]" else "") + (if r.isNonNull then "!" else "")
  }

  /** Optional marker suffix: `t` followed by `!` when `b` holds. */
  function Bang(t: string, b: bool): string {
    if b then t + "!" else t
  }

  /** Optional list brackets: `[t]` when `b` holds. */
  function Bracket(t: string, b: bool): string {
    if b then "[" + t + "]" else t
  }

  /** Strip one trailing `!`, telling whether there was one. */
  function StripBang(s: string): (r: (string, bool))
    ensures Bang(r.0, r.1) == s
  {
    if EndsWithChar(s, '!') then (s[..|s| - 1], true) else (s, false)
  }

  /** Strip one enclosing `[...]`, telling whether there was one. */
  function StripBrackets(s: string): (r: (string, bool))
    ensures Bracket(r.0, r.1) == s
  {
    if StartsWithChar(s, '[') && EndsWithChar(s, ']') then (s[1..|s| - 1], true) else (s, false)
  }

  /** The wrapper syntax `fromString` strips: one trailing `!`, then one
      `[...]` level, then one `!` inside it. Gives the text left over and the
      three flags (isList, isNonNull, isNonNullItem), and putting the
      wrappers back rebuilds the text. */
  function Unwrap(s0: string): (r: (string, bool, bool, bool))
    ensures r.3 ==> r.1
    ensures Bang(Bracket(Bang(r.0, r.3), r.1), r.2) == s0
  {
    var (s1, isNonNull) := StripBang(s0);
    var (s2, isList) := StripBrackets(s1);
    var (s3, isNonNullItem) := if isList then StripBang(s2) else (s2, false);
    (s3, isList, isNonNull, isNonNullItem)
  }

  lemma StripBangOf(t: string, b: bool)
    requires !EndsWithChar(t, '!')
    ensures StripBang(Bang(t, b)) == (t, b)
  {
    if b {
      assert Bang(t, b)[..|t|] == t;
    }
  }

  lemma StripBracketsOf(t: string, b: bool)
    requires !(StartsWithChar(t, '[') && EndsWithChar(t, ']'))
    ensures StripBrackets(Bracket(t, b)) == (t, b)
  {
    if b {
      assert Bracket(t, b)[1..|t| + 1] == t;
    }
  }

  /** `fromString`: null or empty text gives null; otherwise trim, unwrap and trim the base name. */
  function FromString(typeString: Option<string>): (r: Option<TypeRef>)
    ensures r.None? <==> (typeString.None? || typeString.value == [])
    ensures r.Some? ==> r.value.kind == DetermineKind(r.value.name)
    ensures r.Some? && r.value.isNonNullItem ==> r.value.isList
  {
    if typeString.None? || typeString.value == [] then None
    else
      var u := Unwrap(Trim(typeString.value));
      var baseName := Trim(u.0);
      Some(TypeRef(baseName, DetermineKind(baseName), u.1, u.2, u.3))
  }

  /** A bare type name: non-empty, no wrapper syntax, nothing `trim` would remove. */
  predicate PlainName(n: string) {
    n != [] && forall i | 0 <= i < |n| :: !IsTrimmable(n[i]) && n[i] != '[' && n[i] != ']' && n[i] != '!'
  }

  /** The references `fromString` can produce from a plain name. */
  predicate WellFormed(r: TypeRef) {
    PlainName(r.name) && (r.isNonNullItem ==> r.isList) && r.kind == DetermineKind(r.name)
  }

  lemma PrintedForm(r: TypeRef)
    ensures ToGraphQLString(r) == Bang(Bracket(Bang(r.name, r.isNonNullItem), r.isList), r.isNonNull)
  {
  }

  /** Unwrapping the printed form of a plain name recovers the name and the flags. */
  lemma UnwrapPrinted(r: TypeRef)
    requires PlainName(r.name) && (r.isNonNullItem ==> r.isList)
    ensures Unwrap(ToGraphQLString(r)) == (r.name, r.isList, r.isNonNull, r.isNonNullItem)
  {
    var n := r.name;
    var inner := Bang(n, r.isNonNullItem);
    var listed := Bracket(inner, r.isList);
    PrintedForm(r);
    assert n[|n| - 1] != '!' && n[0] != '[';
    assert inner[0] == n[0];
    assert !EndsWithChar(listed, '!');
    StripBangOf(listed, r.isNonNull);
    if r.isList {
      assert !(StartsWithChar(inner, '[') && EndsWithChar(inner, ']'));
      StripBracketsOf(inner, true);
      StripBangOf(n, r.isNonNullItem);
    } else {
      StripBracketsOf(n, false);
    }
  }

  /** Printing a well-formed reference and parsing the text gives the reference back. */
  lemma RoundTrip(r: TypeRef)
    requires WellFormed(r)
    ensures FromString(Some(ToGraphQLString(r))) == Some(r)
  {
    var s := ToGraphQLString(r);
    assert s[0] == (if r.isList then '[' else r.name[0]);
    TrimKeeps(s);
    UnwrapPrinted(r);
    TrimKeeps(r.name);
  }

  /** Unwrapping `[t]` where `t` is itself bracketed strips the outer level only. */
  lemma UnwrapNested(t: string)
    requires |t| >= 2 && t[0] == '[' && t[|t| - 1] == ']'
    ensures Unwrap("[" + t + "]") == (t, true, false, false)
  {
    var s := "[" + t + "]";
    assert s[1..|s| - 1] == t;
  }

  /** Only one list level is stripped: `[[n]]` parses to the base name `[n]`. */
  lemma NestedListKeepsInnerBrackets(n: string)
    requires PlainName(n)
    ensures var r := FromString(Some("[[" + n + "]]"));
      r.Some? && r.value.name == "[" + n + "]" && r.value.isList && !r.value.isNonNull && !r.value.isNonNullItem
  {
    var inner := "[" + n + "]";
    assert "[[" + n + "]]" == "[" + inner + "]";
    TrimKeeps("[" + inner + "]");
    UnwrapNested(inner);
    TrimKeeps(inner);
  }

  lemma BracketedNameIsObject()
    ensures DetermineKind("[T]") == OBJECT
  {
    assert "[T]" !in BuiltInScalars && "[T]" !in CommonCustomScalars;
    assert !EndsWith("[T]", "Input") && !EndsWith("[T]", "Enum");
    assert ToUpper("[T]") == "[T]";
  }

  /** The smallest instance: `[[T]]` parses to a list of the type named `[T]`. */
  lemma NestedListExample()
    ensures FromString(Some("[[T]]")) == Some(TypeRef("[T]", OBJECT, true, false, false))
  {
    NestedListKeepsInnerBrackets("T");
    assert "[[" + "T" + "]]" == "[[T]]";
    assert "[" + "T" + "]" == "[T]";
    BracketedNameIsObject();
  }
}
