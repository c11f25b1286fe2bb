/** The error-message classifier (GripRegexStore): ordered rule lists over
    the patterns of GraphQL servers' validation messages, "did you mean"
    suggestion extraction, the substring signals, and type-name cleanup. */
module RegexStore {
  import opened Wrappers
  import opened Text
  import opened Patterns
  import TypeRefs

  /** `MatchResult`: the suggestions list is never null, so it is a plain sequence. */
  datatype MatchResult = MatchResult(
    field: Option<string>,
    typ: Option<string>,
    suggestions: seq<string>,
    errorType: string)

  // ---------------------------------------------------------------------
  // The patterns, token by token.

  /** The two phrases shared by the selection rules and the substring signals. */
  const HasSelection: string := "must have a selection"
  const HasNoSelection: string := "must not have a selection"

  const FieldNotFound: seq<Tok> :=
    [Lit("Cannot query field "), Quote, Cap(WordClass), Quote, Lit(" on type "), Quote, Cap(WordClass), Quote]
  const MustHaveSelection: seq<Tok> :=
    [Lit("Field "), Quote, Cap(WordClass), Quote, Lit(" of type "), Quote, Cap(WordClass), Quote,
     Lit(" " + HasSelection)]
  const MustNotHaveSelection: seq<Tok> :=
    [Lit("Field "), Quote, Cap(WordClass), Quote, Lit(" " + HasNoSelection + " since type "),
     Quote, Cap(TypeClass), Quote]
  const UnknownArgument: seq<Tok> :=
    [Lit("Unknown argument "), Quote, Cap(WordClass), Quote, Lit(" on field "), Quote,
     Cap(WordClass), Lit("."), Cap(WordClass), Quote]
  const ArgumentType: seq<Tok> :=
    [Lit("Argument "), Quote, Cap(WordClass), Quote, Star(DotClass), AnyOf(["of type", "expected"]),
     Lit(" "), Quote, Cap(TypeClass), Quote]
  const RequiredArgument: seq<Tok> :=
    [Lit("Field "), Quote, Cap(WordClass), Quote, Lit(" argument "), Quote, Cap(WordClass), Quote,
     Lit(" of type "), Quote, Cap(TypeClass), Quote, Lit(" is required")]
  const NotInputType: seq<Tok> :=
    [Quote, Cap(WordClass), Quote, Lit(" is not an input type")]
  const AbstractType: seq<Tok> :=
    [Lit("Abstract type "), Quote, Cap(WordClass), Quote, Lit(" must resolve to")]
  const EnumInvalidValue: seq<Tok> :=
    [Lit("Enum "), Quote, Cap(WordClass), Quote, Lit(" cannot represent"), Star(DotClass), Lit("value"),
     OptChar(':'), Star(SpaceClass), OptQuote, Cap(WordClass), OptQuote]
  const ExpectedType: seq<Tok> :=
    [Lit("Expected type "), OptQuote, Cap(TypeClass), OptQuote, OptChar(','), Lit(" found")]
  const HotChocolateField: seq<Tok> :=
    [Lit("The field "), OptQuote, Cap(WordClass), OptQuote, Lit(" does not exist on "), OptQuote,
     Cap(WordClass), OptQuote]
  const SangriaField: seq<Tok> :=
    [Lit("Field "), OptQuote, Cap(WordClass), OptQuote, Lit(" is not defined")]
  const GrapheneField: seq<Tok> :=
    [Lit("Cannot resolve field "), OptQuote, Cap(WordClass), OptQuote]
  const JuniperField: seq<Tok> :=
    [Lit("Unknown field "), OptQuote, Cap(WordClass), OptQuote]
  const AppSyncField: seq<Tok> :=
    [Lit("FieldUndefined:"), Star(DotClass), Lit("field "), OptQuote, Cap(WordClass), OptQuote]
  const PostGraphileField: seq<Tok> :=
    [AnyOf(["Cannot", "Unable to"]), Lit(" query field "), OptQuote, Cap(WordClass), OptQuote]
  /** Relay's pattern is Juniper's followed by ` on type "T"`. */
  const RelayField: seq<Tok> :=
    JuniperField + [Lit(" on type "), OptQuote, Cap(WordClass), OptQuote]
  const DgsField: seq<Tok> :=
    [AnyOf(["Field", "Property"]), Lit(" "), OptQuote, Cap(WordClass), OptQuote, Lit(" "),
     AnyOf(["not found", "does not exist"])]

  // ---------------------------------------------------------------------
  // Rules: a pattern, the error type it reports and how its groups become a result.

  /** How a rule's capture groups fill a MatchResult. */
  datatype Shape =
    | FieldAndType(normalize: bool, suggest: bool)  // field = g1, type = g2
    | FieldOnly(suggest: bool)                      // field = g1
    | QualifiedArgument                             // field = g1, type = g2 "." g3, with suggestions
    | RequiredArgumentShape                         // field = g2, type = g1 ":" normalized g3
    | TypeOnly(normalize: bool)                     // type = g1
    | EnumValueShape                                // field = g2, type = g1

  datatype Rule = Rule(errorType: string, pattern: seq<Tok>, shape: Shape)

  /** `extractFieldInfo`'s rules, in the order they are tried. */
  const FieldRules: seq<Rule> := [
    Rule("FIELD_NOT_FOUND", FieldNotFound, FieldAndType(false, true)),
    Rule("OBJECT_TYPE", MustHaveSelection, FieldAndType(false, false)),
    Rule("SCALAR_TYPE", MustNotHaveSelection, FieldAndType(true, false)),
    Rule("HOTCHOCOLATE_FIELD_NOT_FOUND", HotChocolateField, FieldAndType(false, true)),
    Rule("SANGRIA_FIELD_NOT_DEFINED", SangriaField, FieldOnly(true)),
    Rule("GRAPHENE_CANNOT_RESOLVE", GrapheneField, FieldOnly(false)),
    Rule("JUNIPER_UNKNOWN_FIELD", JuniperField, FieldOnly(false)),
    Rule("APPSYNC_FIELD_UNDEFINED", AppSyncField, FieldOnly(false)),
    Rule("POSTGRAPHILE_UNKNOWN_FIELD", PostGraphileField, FieldOnly(true)),
    Rule("RELAY_UNKNOWN_FIELD", RelayField, FieldAndType(false, false)),
    Rule("DGS_FIELD_NOT_FOUND", DgsField, FieldOnly(false))
  ]

  /** `extractArgumentInfo`'s rules, in order. */
  const ArgumentRules: seq<Rule> := [
    Rule("UNKNOWN_ARGUMENT", UnknownArgument, QualifiedArgument),
    Rule("REQUIRED_ARGUMENT", RequiredArgument, RequiredArgumentShape),
    Rule("ARGUMENT_TYPE", ArgumentType, FieldAndType(true, false))
  ]

  /** `extractTypeInfo`'s rules, in order. */
  const TypeRules: seq<Rule> := [
    Rule("NOT_INPUT_TYPE", NotInputType, TypeOnly(false)),
    Rule("ABSTRACT_TYPE", AbstractType, TypeOnly(false)),
    Rule("EXPECTED_TYPE", ExpectedType, TypeOnly(true)),
    Rule("ENUM_TYPE", EnumInvalidValue, EnumValueShape)
  ]

  /** Group `k` of a match, or empty text when the pattern has fewer groups
      (every rule's pattern has the groups its shape reads). */
  function Group(caps: seq<string>, k: nat): string {
    if k < |caps| then caps[k] else ""
  }

  /** The result a rule reports for its groups. */
  function Build(r: Rule, caps: seq<string>, msg: string): (m: MatchResult)
    ensures m.errorType == r.errorType
  {
    match r.shape
    case FieldAndType(norm, suggest) =>
      MatchResult(Some(Group(caps, 0)), Some(if norm then StripWrapperChars(Group(caps, 1)) else Group(caps, 1)),
                  if suggest then SuggestionsOf(msg) else [], r.errorType)
    case FieldOnly(suggest) =>
      MatchResult(Some(Group(caps, 0)), None, if suggest then SuggestionsOf(msg) else [], r.errorType)
    case QualifiedArgument =>
      MatchResult(Some(Group(caps, 0)), Some(Group(caps, 1) + "." + Group(caps, 2)), SuggestionsOf(msg), r.errorType)
    case RequiredArgumentShape =>
      MatchResult(Some(Group(caps, 1)), Some(Group(caps, 0) + ":" + StripWrapperChars(Group(caps, 2))), [], r.errorType)
    case TypeOnly(norm) =>
      MatchResult(None, Some(if norm then StripWrapperChars(Group(caps, 0)) else Group(caps, 0)), [], r.errorType)
    case EnumValueShape =>
      MatchResult(Some(Group(caps, 1)), Some(Group(caps, 0)), [], r.errorType)
  }

  /** The index of the first rule from `k` on whose pattern is found in `s`,
      or |rules| when there is none: the order of the list decides. */
  function FirstRule(rules: seq<Rule>, s: string, k: nat): (j: nat)
    requires k <= |rules|
    ensures k <= j <= |rules|
    ensures j < |rules| ==> Find(rules[j].pattern, s).Some?
    ensures forall i | k <= i < j :: Find(rules[i].pattern, s).None?
    decreases |rules| - k
  {
    if k == |rules| || Find(rules[k].pattern, s).Some? then k else FirstRule(rules, s, k + 1)
  }

  /** The result of the first rule whose pattern is found. */
  function FirstMatch(rules: seq<Rule>, s: string): Option<MatchResult> {
    var j := FirstRule(rules, s, 0);
    if j == |rules| then None else Some(Build(rules[j], Find(rules[j].pattern, s).value, s))
  }

  /** The shared entry of the three extractors: null or empty text gives null. */
  function Extract(rules: seq<Rule>, msg: Option<string>): (r: Option<MatchResult>)
    ensures msg.None? || msg.value == [] ==> r.None?
  {
    if msg.None? || msg.value == [] then None else FirstMatch(rules, msg.value)
  }

  /** `extractFieldInfo`. */
  function ExtractFieldInfo(msg: Option<string>): (r: Option<MatchResult>)
    ensures msg.None? || msg.value == [] ==> r.None?
  {
    Extract(FieldRules, msg)
  }

  /** `extractArgumentInfo`. */
  function ExtractArgumentInfo(msg: Option<string>): (r: Option<MatchResult>)
    ensures msg.None? || msg.value == [] ==> r.None?
  {
    Extract(ArgumentRules, msg)
  }

  /** `extractTypeInfo`. */
  function ExtractTypeInfo(msg: Option<string>): (r: Option<MatchResult>)
    ensures msg.None? || msg.value == [] ==> r.None?
  {
    Extract(TypeRules, msg)
  }

  /** First match wins: a result is the first rule's, in the fixed order,
      whose pattern is found, and there is none when no pattern is found. */
  lemma FieldRuleOrder(s: string)
    requires s != []
    ensures var j := FirstRule(FieldRules, s, 0);
      (ExtractFieldInfo(Some(s)).None? <==> j == |FieldRules|) &&
      (j < |FieldRules| ==> ExtractFieldInfo(Some(s)).value.errorType == FieldRules[j].errorType)
  {
  }

  /** Relay's rule is unreachable: Juniper's pattern is a prefix of Relay's and is
      tried earlier, so whenever Relay's would match, Juniper's already has. */
  lemma RelayNeverReturned(msg: Option<string>)
    ensures ExtractFieldInfo(msg).None? || ExtractFieldInfo(msg).value.errorType != "RELAY_UNKNOWN_FIELD"
  {
    if msg.Some? && msg.value != [] {
      var s := msg.value;
      var j := FirstRule(FieldRules, s, 0);
      if j == 9 {
        var tail := [Lit(" on type "), OptQuote, Cap(WordClass), OptQuote];
        assert FieldRules[9].pattern == JuniperField + tail;
        assert FieldRules[6].pattern == JuniperField;
        assert Find(JuniperField + tail, s).Some?;
        assert Find(JuniperField, s).None?;
        FindPrefix(JuniperField, tail, s);
        assert false;
      }
    }
  }

  /** A SCALAR_TYPE result's type carries no list or non-null markers. */
  lemma ScalarTypeIsBare(msg: Option<string>)
    requires ExtractFieldInfo(msg).Some? && ExtractFieldInfo(msg).value.errorType == "SCALAR_TYPE"
    ensures var t := ExtractFieldInfo(msg).value.typ;
      t.Some? && forall i | 0 <= i < |t.value| :: !IsWrapperChar(t.value[i])
  {
    var s := msg.value;
    FieldRuleOrder(s);
    assert FirstRule(FieldRules, s, 0) == 2;
  }

  // ---------------------------------------------------------------------
  // Matching FIELD_NOT_FOUND step by step.

  /** A run of exactly `n` class characters stops where the text leaves the class. */
  lemma {:induction false} RunExact(cl: Class, s: string, i: nat, n: nat)
    requires i + n <= |s|
    requires forall k | i <= k < i + n :: InClass(cl, s[k])
    requires i + n == |s| || !InClass(cl, s[i + n])
    ensures Run(cl, s, i) == n
    decreases n
  {
    if n > 0 {
      RunExact(cl, s, i + 1, n - 1);
    }
  }

  /** `Cannot query field "f" on type "T"...` as the first rule's pattern finds it. */
  function FieldNotFoundMessage(f: string, t: string, rest: string): string {
    "Cannot query field \"" + f + "\" on type \"" + t + "\"" + rest
  }

  /** The first rule's pattern from its fourth token on, followed over
      `" on type "` word `"` at `b`. */
  lemma FieldNotFoundTail(s: string, b: nat, d: nat, f: string)
    requires b + 11 < d < |s|
    requires IsQuote(s[b]) && StartsAt(s, b + 1, " on type ") && IsQuote(s[b + 10])
    requires Run(WordClass, s, b + 11) == d - (b + 11) && IsQuote(s[d])
    ensures Match(FieldNotFound[3..], s, b, [f]) == Some([f, s[b + 11..d]])
  {
    var p := FieldNotFound;
    assert |p| == 8 && p[3] == Quote && p[4] == Lit(" on type ") && p[5] == Quote && p[6] == Cap(WordClass) && p[7] == Quote;
    OnTypeTail(p, s, b, d, f);
  }

  /** `" on type "` word `"` closing a pattern, from its quote at 3. */
  lemma OnTypeTail(p: seq<Tok>, s: string, b: nat, d: nat, f: string)
    requires |p| == 8 && p[3] == Quote && p[4] == Lit(" on type ") && p[5] == Quote && p[6] == Cap(WordClass) && p[7] == Quote
    requires b + 11 < d < |s|
    requires IsQuote(s[b]) && StartsAt(s, b + 1, " on type ") && IsQuote(s[b + 10])
    requires Run(WordClass, s, b + 11) == d - (b + 11) && IsQuote(s[d])
    ensures Match(p[3..], s, b, [f]) == Some([f, s[b + 11..d]])
  {
    var t := s[b + 11..d];
    assert p[8..] == [];
    QuoteAt(p, 7, s, d, [f, t], [f, t]);
    assert [f] + [t] == [f, t];
    CapAt(p, 6, s, b + 11, d - (b + 11), [f], [f, t]);
    QuoteAt(p, 5, s, b + 10, [f], [f, t]);
    LitAt(p, 4, s, b + 1, [f], [f, t]);
    QuoteAt(p, 3, s, b, [f], [f, t]);
  }

  /** The first rule's pattern from its field group on. */
  lemma FieldNotFoundFromField(s: string, b: nat, d: nat)
    requires 20 < b && b + 11 < d < |s|
    requires Run(WordClass, s, 20) == b - 20 && IsQuote(s[b])
    requires StartsAt(s, b + 1, " on type ") && IsQuote(s[b + 10])
    requires Run(WordClass, s, b + 11) == d - (b + 11) && IsQuote(s[d])
    ensures Match(FieldNotFound[2..], s, 20, []) == Some([s[20..b], s[b + 11..d]])
  {
    var f, t := s[20..b], s[b + 11..d];
    FieldNotFoundTail(s, b, d, f);
    assert [] + [f] == [f];
    CapAt(FieldNotFound, 2, s, 20, b - 20, [], [f, t]);
  }

  /** The first rule's pattern, followed over a text laid out as
      `Cannot query field "` word `" on type "` word `"`. */
  lemma FieldNotFoundChain(s: string, b: nat, d: nat, f: string, t: string)
    requires 20 < b && b + 11 < d < |s|
    requires StartsAt(s, 0, "Cannot query field ") && IsQuote(s[19])
    requires Run(WordClass, s, 20) == b - 20 && IsQuote(s[b])
    requires StartsAt(s, b + 1, " on type ") && IsQuote(s[b + 10])
    requires Run(WordClass, s, b + 11) == d - (b + 11) && IsQuote(s[d])
    requires s[20..b] == f && s[b + 11..d] == t
    ensures Match(FieldNotFound, s, 0, []) == Some([f, t])
  {
    var p := FieldNotFound;
    var out := [s[20..b], s[b + 11..d]];
    FieldNotFoundFromField(s, b, d);
    QuoteAt(p, 1, s, 19, [], out);
    LitAt(p, 0, s, 0, [], out);
    assert p[0..] == p;
  }

  /** Where the pieces of `Cannot query field "f" on type "T"` sit. */
  lemma FieldNotFoundPieces(f: string, t: string, rest: string)
    ensures var s := FieldNotFoundMessage(f, t, rest);
      var b := 20 + |f|;
      var d := b + 11 + |t|;
      d < |s| && s[..19] == "Cannot query field " && s[19] == '"' && s[20..b] == f && s[b] == '"'
      && s[b + 1..b + 10] == " on type " && s[b + 10] == '"' && s[b + 11..d] == t && s[d] == '"'
  {
  }

  /** A word inside a text, followed by a character outside the word class,
      is one run. */
  lemma WordRun(s: string, i: nat, w: string)
    requires IsWord(w) && i + |w| < |s| && s[i..i + |w|] == w && !InClass(WordClass, s[i + |w|])
    ensures Run(WordClass, s, i) == |w|
  {
    forall k | i <= k < i + |w| ensures InClass(WordClass, s[k]) {
      assert s[k] == w[k - i];
    }
    RunExact(WordClass, s, i, |w|);
  }

  /** The first rule's pattern finds `f` and `T` in that message. */
  lemma FieldNotFoundMatches(f: string, t: string, rest: string)
    requires IsWord(f) && IsWord(t)
    ensures Find(FieldNotFound, FieldNotFoundMessage(f, t, rest)) == Some([f, t])
  {
    var s := FieldNotFoundMessage(f, t, rest);
    var b := 20 + |f|;
    var d := b + 11 + |t|;
    FieldNotFoundPieces(f, t, rest);
    WordRun(s, 20, f);
    WordRun(s, b + 11, t);
    FieldNotFoundChain(s, b, d, f, t);
    FindAtStart(FieldNotFound, s, [f, t]);
  }

  /** The message graphql-js and its ports send for an unknown field begins
      `Cannot query field "f" on type "T"`; the first rule reads `f` and `T` from it,
      with the message's suggestions. */
  lemma FieldNotFoundReadsFieldAndType(f: string, t: string, rest: string)
    requires IsWord(f) && IsWord(t)
    ensures var s := FieldNotFoundMessage(f, t, rest);
      ExtractFieldInfo(Some(s)) == Some(MatchResult(Some(f), Some(t), SuggestionsOf(s), "FIELD_NOT_FOUND"))
  {
    var s := FieldNotFoundMessage(f, t, rest);
    FieldNotFoundMatches(f, t, rest);
    assert FirstRule(FieldRules, s, 0) == 0;
    assert FirstMatch(FieldRules, s) == Some(Build(FieldRules[0], [f, t], s));
  }

  // ---------------------------------------------------------------------
  // Type names.

  predicate IsWrapperChar(c: char) { c == '[' || c == ']' || c == '!' }

  /** `replaceAll("[\\[\\]!]", "")` on a non-null name. */
  function StripWrapperChars(t: string): (r: string)
    ensures |r| <= |t|
    ensures forall i | 0 <= i < |r| :: !IsWrapperChar(r[i])
  {
    if t == [] then [] else (if IsWrapperChar(t[0]) then [] else [t[0]]) + StripWrapperChars(t[1..])
  }

  /** `normalizeTypeName`: null stays null, otherwise the wrapper characters go. */
  function NormalizeTypeName(t: Option<string>): (r: Option<string>)
    ensures r.None? <==> t.None?
    ensures r.Some? ==> forall i | 0 <= i < |r.value| :: !IsWrapperChar(r.value[i])
  {
    match t
    case None => None
    case Some(s) => Some(StripWrapperChars(s))
  }

  /** Deletion works character by character: it distributes over concatenation. */
  lemma {:induction false} StripAppend(a: string, b: string)
    ensures StripWrapperChars(a + b) == StripWrapperChars(a) + StripWrapperChars(b)
  {
    if a == [] {
      assert a + b == b;
    } else {
      assert (a + b)[1..] == a[1..] + b;
      StripAppend(a[1..], b);
    }
  }

  /** Text without wrapper characters is left as it is. */
  lemma {:induction false} StripKeepsBare(t: string)
    requires forall i | 0 <= i < |t| :: !IsWrapperChar(t[i])
    ensures StripWrapperChars(t) == t
  {
    if t != [] {
      StripKeepsBare(t[1..]);
    }
  }

  /** Normalizing twice is normalizing once. */
  lemma NormalizeIdempotent(t: Option<string>)
    ensures NormalizeTypeName(NormalizeTypeName(t)) == NormalizeTypeName(t)
  {
    if t.Some? {
      StripKeepsBare(StripWrapperChars(t.value));
    }
  }

  /** Normalizing the printed form of a reference gives back its base name. */
  lemma NormalizePrintedRef(r: TypeRefs.TypeRef)
    requires TypeRefs.PlainName(r.name)
    ensures NormalizeTypeName(Some(TypeRefs.ToGraphQLString(r))) == Some(r.name)
  {
    var open := if r.isList then "[" else "";
    var inner := if r.isNonNullItem then "!" else "";
    var close := if r.isList then "]" else "";
    var outer := if r.isNonNull then "!" else "";
    assert TypeRefs.ToGraphQLString(r) == open + r.name + inner + close + outer;
    assert StripWrapperChars(open) == [] && StripWrapperChars(inner) == [];
    assert StripWrapperChars(close) == [] && StripWrapperChars(outer) == [];
    StripKeepsBare(r.name);
    calc {
      StripWrapperChars(open + r.name + inner + close + outer);
      { StripAppend(open + r.name + inner + close, outer); }
      StripWrapperChars(open + r.name + inner + close);
      { StripAppend(open + r.name + inner, close); }
      StripWrapperChars(open + r.name + inner);
      { StripAppend(open + r.name, inner); }
      StripWrapperChars(open + r.name);
      { StripAppend(open, r.name); }
      r.name;
    }
  }

  /** `isListType`. */
  predicate IsListType(t: Option<string>) {
    t.Some? && exists i | 0 <= i < |t.value| :: t.value[i] == '['
  }

  /** `isNonNullType`. */
  predicate IsNonNullType(t: Option<string>) {
    t.Some? && EndsWithChar(t.value, '!')
  }

  /** On printed references the two tests read back the wrapper flags. */
  lemma WrapperTestsOnPrintedRef(r: TypeRefs.TypeRef)
    requires TypeRefs.PlainName(r.name) && (r.isNonNullItem ==> r.isList)
    ensures IsListType(Some(TypeRefs.ToGraphQLString(r))) <==> r.isList
    ensures IsNonNullType(Some(TypeRefs.ToGraphQLString(r))) <==> r.isNonNull
  {
    var s := TypeRefs.ToGraphQLString(r);
    if r.isList {
      assert s[0] == '[';
    } else {
      assert s == r.name + (if r.isNonNull then "!" else "");
      assert forall i | 0 <= i < |s| :: s[i] != '[' by {
        forall i | 0 <= i < |s| ensures s[i] != '[' {
          if i < |r.name| { assert s[i] == r.name[i]; }
        }
      }
    }
    if !r.isNonNull {
      if r.isList {
        assert s[|s| - 1] == ']';
      } else {
        assert s == r.name;
      }
    }
  }

  // ---------------------------------------------------------------------
  // Substring signals.

  /** `indicatesValidField`: the server recognised the field. */
  predicate IndicatesValidField(msg: Option<string>) {
    msg.Some? &&
    (Contains(msg.value, HasSelection) || Contains(msg.value, HasNoSelection) ||
     Contains(msg.value, "is required") || Contains(msg.value, "argument") ||
     Contains(msg.value, "Expected type"))
  }

  /** `indicatesObjectType`. */
  predicate IndicatesObjectType(msg: Option<string>) {
    msg.Some? && (Contains(msg.value, HasSelection) || Contains(msg.value, "must have a sub selection"))
  }

  /** `indicatesScalarType`. */
  predicate IndicatesScalarType(msg: Option<string>) {
    msg.Some? && (Contains(msg.value, HasNoSelection) || Contains(msg.value, "cannot have a selection"))
  }

  /** An occurrence inside a part is an occurrence in the whole. */
  lemma ContainsIn(s: string, i: nat, t: string, p: string)
    requires StartsAt(s, i, t) && Contains(t, p)
    ensures Contains(s, p)
  {
    var k :| 0 <= k <= |t| && StartsAt(t, k, p);
    assert s[i..i + |t|] == t;
    assert s[i + k..i + k + |p|] == p by {
      forall x | 0 <= x < |p| ensures s[i + k + x] == p[x] {
        assert s[i + k + x] == t[k + x];
      }
    }
    assert StartsAt(s, i + k, p);
  }

  /** A phrase after a space is in the text. */
  lemma ContainsAfterSpace(p: string, x: string)
    ensures Contains(" " + p + x, p)
  {
    assert (" " + p + x)[1..1 + |p|] == p;
    assert StartsAt(" " + p + x, 1, p);
  }

  /** Every message the two selection rules match is also a valid-field
      signal, and a type signal of the matching kind. */
  lemma SelectionMatchesAreSignals(s: string)
    ensures Find(MustHaveSelection, s).Some? ==>
      IndicatesValidField(Some(s)) && IndicatesObjectType(Some(s))
    ensures Find(MustNotHaveSelection, s).Some? ==>
      IndicatesValidField(Some(s)) && IndicatesScalarType(Some(s))
  {
    if Find(MustHaveSelection, s).Some? {
      var j :| MatchesAt(MustHaveSelection, s, j);
      var t := " " + HasSelection;
      assert MustHaveSelection[8] == Lit(t);
      var e := LiteralOccurs(MustHaveSelection, 8, s, j, []);
      ContainsAfterSpace(HasSelection, "");
      assert t == " " + HasSelection + "";
      ContainsIn(s, e, t, HasSelection);
    }
    if Find(MustNotHaveSelection, s).Some? {
      var j :| MatchesAt(MustNotHaveSelection, s, j);
      var t := " " + HasNoSelection + " since type ";
      assert MustNotHaveSelection[4] == Lit(t);
      var e := LiteralOccurs(MustNotHaveSelection, 4, s, j, []);
      ContainsAfterSpace(HasNoSelection, " since type ");
      ContainsIn(s, e, t, HasNoSelection);
    }
  }

  // ---------------------------------------------------------------------
  // "Did you mean" suggestions.

  const DidYouMeanPhrase: string := "Did you mean "

  /** `["']?([\w]+)["']?` at `i`, greedy: the word and the index after the item. */
  function Item(s: string, i: nat): (r: Option<(string, nat)>)
    requires i <= |s|
    ensures r.Some? ==> IsWord(r.value.0) && i < r.value.1 <= |s|
  {
    var a := if i < |s| && IsQuote(s[i]) then i + 1 else i;
    var n := Run(WordClass, s, a);
    if n == 0 then None
    else
      var b := a + n;
      Some((s[a..b], if b < |s| && IsQuote(s[b]) then b + 1 else b))
  }

  /** `(?:,\s*["']?([\w]+)["']?)*` from `i`: a repeated group keeps only the
      word of its last repetition. Gives that word and the index after the repetitions. */
  function Repetitions(s: string, i: nat, last: Option<string>): (r: (Option<string>, nat))
    requires i <= |s|
    ensures i <= r.1 <= |s|
    ensures last.Some? && last.value != [] ==> r.0.Some? && r.0.value != []
    decreases |s| - i
  {
    if i < |s| && s[i] == ',' then
      match Item(s, SkipSpaces(s, i + 1))
      case Some((w, e)) => Repetitions(s, e, Some(w))
      case None => (last, i)
    else (last, i)
  }

  /** `(?:\s*(?:,\s*)?or ["']?([\w]+)["']?)?` at `i`. */
  function OrItem(s: string, i: nat): Option<string>
    requires i <= |s|
  {
    var j1 := SkipSpaces(s, i);
    var j2 := if j1 < |s| && s[j1] == ',' then SkipSpaces(s, j1 + 1) else j1;
    if StartsAt(s, j2, "or ") then
      match Item(s, j2 + 3)
      case Some((w, _)) => Some(w)
      case None => None
    else None
  }

  /** The three groups of the source's DID_YOU_MEAN pattern matched at `i`. */
  function GroupsAt(s: string, i: nat): Option<seq<Option<string>>>
    requires i <= |s|
  {
    if !StartsAt(s, i, DidYouMeanPhrase) then None
    else
      match Item(s, i + |DidYouMeanPhrase|)
      case None => None
      case Some((g1, e)) =>
        var (g2, e2) := Repetitions(s, e, None);
        Some([Some(g1), g2, OrItem(s, e2)])
  }

  /** A separator between two suggestions: `,` (maybe followed by `or `) or
      ` or `, with any spaces around. */
  function Separator(s: string, i: nat): (r: Option<nat>)
    requires i <= |s|
    ensures r.Some? ==> i < r.value <= |s|
  {
    var j1 := SkipSpaces(s, i);
    if j1 < |s| && s[j1] == ',' then
      var j2 := SkipSpaces(s, j1 + 1);
      Some(if StartsAt(s, j2, "or ") then j2 + 3 else j2)
    else if StartsAt(s, j1, "or ") then Some(j1 + 3)
    else None
  }

  /** Every further suggestion after the one ending at `i`. */
  function MoreItems(s: string, i: nat): (r: seq<string>)
    requires i <= |s|
    decreases |s| - i
  {
    match Separator(s, i)
    case None => []
    case Some(j) =>
      match Item(s, j)
      case None => []
      case Some((w, e)) => [w] + MoreItems(s, e)
  }

  /** The groups as evidently intended: one per suggestion listed, all of them. */
  function AllGroupsAt(s: string, i: nat): Option<seq<Option<string>>>
    requires i <= |s|
  {
    if !StartsAt(s, i, DidYouMeanPhrase) then None
    else
      match Item(s, i + |DidYouMeanPhrase|)
      case None => None
      case Some((g1, e)) => Some(Somes([g1] + MoreItems(s, e)))
  }

  function Somes(ws: seq<string>): (r: seq<Option<string>>)
    ensures |r| == |ws| && forall k | 0 <= k < |ws| :: r[k] == Some(ws[k])
  {
    if ws == [] then [] else [Some(ws[0])] + Somes(ws[1..])
  }

  /** `Matcher.find()` for DID_YOU_MEAN: the groups at the leftmost start where it matches. */
  function FindGroups(s: string, i: nat, intended: bool): Option<seq<Option<string>>>
    requires i <= |s|
    decreases |s| - i
  {
    var g := if intended then AllGroupsAt(s, i) else GroupsAt(s, i);
    if g.Some? then g
    else if i == |s| then None
    else FindGroups(s, i + 1, intended)
  }

  /** The groups that are neither null nor empty, in group order. */
  function Present(groups: seq<Option<string>>): (r: seq<string>)
    ensures |r| <= |groups|
    ensures forall w | w in r :: w != []
  {
    if groups == [] then []
    else (if groups[0].Some? && groups[0].value != [] then [groups[0].value] else []) + Present(groups[1..])
  }

  /** `["']([\w]+)["']` at `i`: the word and the index after the closing quote. */
  function QuotedAt(s: string, i: nat): (r: Option<(string, nat)>)
    requires i <= |s|
    ensures r.Some? ==> IsWord(r.value.0) && i < r.value.1 <= |s|
  {
    if i < |s| && IsQuote(s[i]) then
      var n := Run(WordClass, s, i + 1);
      if n > 0 && i + 1 + n < |s| && IsQuote(s[i + 1 + n]) then Some((s[i + 1..i + 1 + n], i + 2 + n))
      else None
    else None
  }

  /** `w` is a quoted word of `s` found at or after `i`. */
  predicate QuotedFrom(s: string, i: nat, w: string) {
    exists k | i <= k < |s| :: QuotedAt(s, k).Some? && QuotedAt(s, k).value.0 == w
  }

  /** The `while (matcher.find())` loop: every quoted word from `i` on, added
      to `acc` unless already there. The result extends `acc` and adds no
      word twice. */
  function Collect(s: string, i: nat, acc: seq<string>): (r: seq<string>)
    requires i <= |s|
    ensures acc <= r
    ensures NoDup(acc) ==> NoDup(r)
    decreases |s| - i
  {
    if i == |s| then acc
    else
      match QuotedAt(s, i)
      case Some((w, e)) => Collect(s, e, if w in acc then acc else acc + [w])
      case None => Collect(s, i + 1, acc)
  }

  /** Every word the loop adds is a quoted word found at or after `i`. */
  lemma {:induction false} CollectAddsQuoted(s: string, i: nat, acc: seq<string>)
    requires i <= |s|
    ensures forall j | |acc| <= j < |Collect(s, i, acc)| :: QuotedFrom(s, i, Collect(s, i, acc)[j])
    decreases |s| - i
  {
    if i < |s| {
      var r := Collect(s, i, acc);
      match QuotedAt(s, i)
      case Some((w, e)) =>
        var acc' := if w in acc then acc else acc + [w];
        CollectAddsQuoted(s, e, acc');
        assert r == Collect(s, e, acc');
        forall j | |acc| <= j < |r|
          ensures QuotedFrom(s, i, r[j])
        {
          if j < |acc'| {
            assert r[j] == acc'[j] == w;
            assert QuotedAt(s, i).Some? && QuotedAt(s, i).value.0 == r[j];
          } else {
            assert QuotedFrom(s, e, r[j]);
            var k :| e <= k < |s| && QuotedAt(s, k).Some? && QuotedAt(s, k).value.0 == r[j];
            assert i <= k;
          }
        }
      case None =>
        CollectAddsQuoted(s, i + 1, acc);
        assert r == Collect(s, i + 1, acc);
        forall j | |acc| <= j < |r|
          ensures QuotedFrom(s, i, r[j])
        {
          assert QuotedFrom(s, i + 1, r[j]);
          var k :| i + 1 <= k < |s| && QuotedAt(s, k).Some? && QuotedAt(s, k).value.0 == r[j];
        }
    }
  }

  /** The first quoted word found from `i` on is in the result. */
  lemma {:induction false} CollectKeepsFirst(s: string, i: nat, acc: seq<string>, k: nat)
    requires i <= k < |s| && QuotedAt(s, k).Some?
    requires forall k' | i <= k' < k :: QuotedAt(s, k').None?
    ensures QuotedAt(s, k).value.0 in Collect(s, i, acc)
    decreases k - i
  {
    if i < k {
      assert QuotedAt(s, i).None?;
      CollectKeepsFirst(s, i + 1, acc, k);
    } else {
      var (w, e) := QuotedAt(s, i).value;
      var acc' := if w in acc then acc else acc + [w];
      assert w in acc';
      assert acc' <= Collect(s, e, acc');
    }
  }

  /** Every quoted word of `a`, each once, in the order first found. */
  function QuotedWords(a: string): (r: seq<string>)
    ensures NoDup(r)
    ensures forall j | 0 <= j < |r| :: QuotedFrom(a, 0, r[j])
  {
    CollectAddsQuoted(a, 0, []);
    Collect(a, 0, [])
  }

  /** The fallback: quoted words from the first case-insensitive "did you mean" on,
      each once. */
  function Fallback(s: string): (r: seq<string>)
    ensures NoDup(r)
    ensures r != [] ==> Contains(ToLower(s), "did you mean")
    ensures Contains(ToLower(s), "did you mean") ==> r == QuotedWords(s[IndexOf(ToLower(s), "did you mean")..])
  {
    var lower := ToLower(s);
    if Contains(lower, "did you mean") then QuotedWords(s[IndexOf(lower, "did you mean")..]) else []
  }

  /** Suggestions from the pattern's groups, or from the fallback when there are none. */
  function SuggestionsFrom(groups: Option<seq<Option<string>>>, s: string): seq<string> {
    var found := if groups.Some? then Present(groups.value) else [];
    if found == [] then Fallback(s) else found
  }

  /** `extractSuggestions` on a non-null message, as the source's pattern computes it. */
  function SuggestionsOf(s: string): seq<string> {
    SuggestionsFrom(FindGroups(s, 0, false), s)
  }

  /** `extractSuggestions` as evidently intended: every listed suggestion kept. */
  function IntendedSuggestionsOf(s: string): seq<string> {
    SuggestionsFrom(FindGroups(s, 0, true), s)
  }

  /** `extractSuggestions`: the group loop, then the quoted-word loop when the groups gave nothing. */
  method ExtractSuggestions(msg: Option<string>) returns (r: seq<string>)
    ensures msg.None? ==> r == []
    ensures msg.Some? ==> r == SuggestionsOf(msg.value)
  {
    r := [];
    if msg.None? {
      return;
    }
    var s := msg.value;
    var groups := FindGroups(s, 0, false);
    if groups.Some? {
      var gs := groups.value;
      for i := 0 to |gs|
        invariant r == Present(gs[..i])
      {
        PresentAppend(gs[..i], [gs[i]]);
        assert gs[..i + 1] == gs[..i] + [gs[i]];
        if gs[i].Some? && gs[i].value != [] {
          r := r + [gs[i].value];
        }
      }
      assert gs[..|gs|] == gs;
    }
    var lower := ToLower(s);
    if r == [] && Contains(lower, "did you mean") {
      var idx := IndexOf(lower, "did you mean");
      var after := s[idx..];
      var i := 0;
      while i < |after|
        invariant 0 <= i <= |after|
        invariant Collect(after, i, r) == Collect(after, 0, [])
        decreases |after| - i
      {
        var m := QuotedAt(after, i);
        if m.Some? {
          var (w, e) := m.value;
          if w !in r {
            r := r + [w];
          }
          i := e;
        } else {
          i := i + 1;
        }
      }
    }
  }

  lemma {:induction false} PresentAppend(a: seq<Option<string>>, b: seq<Option<string>>)
    ensures Present(a + b) == Present(a) + Present(b)
  {
    if a == [] {
      assert a + b == b;
    } else {
      assert (a + b)[1..] == a[1..] + b;
      PresentAppend(a[1..], b);
    }
  }

  // ---------------------------------------------------------------------
  // Suggestion lists as GraphQL servers print them.

  /** A suggestion in double quotes. */
  function Quoted(w: string): string {
    "\"" + w + "\""
  }

  /** The entries of a list of three or more from entry `k` on:
      `, "b"`, ..., `, or "z"`. */
  function CommaTail(ws: seq<string>, k: nat): string
    requires k < |ws|
    decreases |ws| - k
  {
    if k == |ws| - 1 then ", or " + Quoted(ws[k]) else ", " + Quoted(ws[k]) + CommaTail(ws, k + 1)
  }

  /** What follows the first entry of graphql-js's list: nothing, ` or "b"`, or a comma tail. */
  function ListRest(ws: seq<string>): string
    requires ws != []
  {
    if |ws| == 1 then "" else if |ws| == 2 then " or " + Quoted(ws[1]) else CommaTail(ws, 1)
  }

  /** graphql-js's list of suggestions: `"a"`, `"a" or "b"`, `"a", "b", or "c"`. */
  function SuggestionList(ws: seq<string>): string
    requires ws != []
  {
    Quoted(ws[0]) + ListRest(ws)
  }

  predicate AllWords(ws: seq<string>) {
    forall j | 0 <= j < |ws| :: IsWord(ws[j])
  }

  /** A quoted word is one item for both the pattern and the fallback. */
  lemma QuotedItem(s: string, i: nat, w: string)
    requires IsWord(w) && StartsAt(s, i, Quoted(w))
    ensures Item(s, i) == Some((w, i + |w| + 2))
    ensures QuotedAt(s, i) == Some((w, i + |w| + 2))
  {
    StartsAtSplit(s, i, "\"" + w, "\"");
    StartsAtSplit(s, i, "\"", w);
    StartsAtChar(s, i, "\"", 0);
    StartsAtChar(s, i + 1 + |w|, "\"", 0);
    RunExact(WordClass, s, i + 1, |w|);
  }

  /** Nothing more is listed where the text goes on with `?`. */
  lemma EndOfList(s: string, e: nat)
    requires e < |s| && s[e] == '?'
    ensures MoreItems(s, e) == []
  {
    assert Separator(s, e).None?;
  }

  /** Neither a repetition nor the `or` group starts at `?`. */
  lemma EndOfGroups(s: string, e: nat)
    requires e < |s| && s[e] == '?'
    ensures Repetitions(s, e, None) == (None, e) && OrItem(s, e).None?
  {
  }

  /** One more suggestion after a separator. */
  lemma MoreItemsUnfold(s: string, i: nat, j: nat, w: string, e: nat)
    requires i <= |s| && Separator(s, i) == Some(j) && j <= |s| && Item(s, j) == Some((w, e)) && e <= |s|
    ensures MoreItems(s, i) == [w] + MoreItems(s, e)
  {
  }

  /** `, or ` is one separator. */
  lemma SeparatorCommaOr(s: string, i: nat)
    requires i + 2 <= |s| && s[i] == ',' && s[i + 1] == ' ' && StartsAt(s, i + 2, "or ")
    ensures Separator(s, i) == Some(i + 5)
  {
    assert s[i + 2] == 'o' by { StartsAtChar(s, i + 2, "or ", 0); }
    assert SkipSpaces(s, i + 1) == i + 2;
  }

  /** `, ` before a quote is one separator. */
  lemma SeparatorComma(s: string, i: nat)
    requires i + 2 < |s| && s[i] == ',' && s[i + 1] == ' ' && s[i + 2] == '"'
    ensures Separator(s, i) == Some(i + 2) && SkipSpaces(s, i + 1) == i + 2
  {
    assert SkipSpaces(s, i + 1) == i + 2;
    DiffersAt(s, i + 2, "or ");
  }

  /** Where the parts of `, or "z"` sit. */
  lemma OrSeparatorLayout(s: string, i: nat, w: string)
    requires StartsAt(s, i, ", or " + Quoted(w))
    ensures i + 2 <= |s| && s[i] == ',' && s[i + 1] == ' ' && StartsAt(s, i + 2, "or ")
    ensures StartsAt(s, i + 5, Quoted(w))
  {
    assert ", or " + Quoted(w) == ", " + ("or " + Quoted(w));
    StartsAtSplit(s, i, ", ", "or " + Quoted(w));
    StartsAtSplit(s, i + 2, "or ", Quoted(w));
    StartsAtChar(s, i, ", ", 0);
    StartsAtChar(s, i, ", ", 1);
  }

  /** `, or "z"` is a separator and then an item. */
  lemma OrSeparator(s: string, i: nat, w: string)
    requires IsWord(w) && StartsAt(s, i, ", or " + Quoted(w))
    ensures Separator(s, i) == Some(i + 5) && Item(s, i + 5) == Some((w, i + |w| + 7))
  {
    OrSeparatorLayout(s, i, w);
    SeparatorCommaOr(s, i);
    QuotedItem(s, i + 5, w);
  }

  /** `, "w"` is a separator and then an item. */
  lemma CommaSeparator(s: string, i: nat, w: string)
    requires IsWord(w) && StartsAt(s, i, ", " + Quoted(w))
    ensures Separator(s, i) == Some(i + 2) && Item(s, i + 2) == Some((w, i + |w| + 4))
    ensures s[i] == ',' && SkipSpaces(s, i + 1) == i + 2
  {
    assert s[i] == ',' && s[i + 1] == ' ' && StartsAt(s, i + 2, Quoted(w)) by {
      StartsAtSplit(s, i, ", ", Quoted(w));
      StartsAtChar(s, i, ", ", 0);
      StartsAtChar(s, i, ", ", 1);
    }
    assert s[i + 2] == '"' by { StartsAtChar(s, i + 2, Quoted(w), 0); }
    SeparatorComma(s, i);
    QuotedItem(s, i + 2, w);
  }

  /** Where the last entry of a comma tail sits. */
  lemma TailLastLayout(s: string, i: nat, ws: seq<string>, k: nat)
    requires k == |ws| - 1 && StartsAt(s, i, CommaTail(ws, k) + "?")
    ensures StartsAt(s, i, ", or " + Quoted(ws[k]) + "?")
  {
  }

  /** Where an entry of a comma tail and the entries after it sit. */
  lemma TailStepLayout(s: string, i: nat, ws: seq<string>, k: nat)
    requires k < |ws| - 1 && StartsAt(s, i, CommaTail(ws, k) + "?")
    ensures StartsAt(s, i, ", " + Quoted(ws[k]))
    ensures StartsAt(s, i + |ws[k]| + 4, CommaTail(ws, k + 1) + "?")
  {
    var w, more := ws[k], CommaTail(ws, k + 1) + "?";
    assert CommaTail(ws, k) + "?" == ", " + Quoted(w) + more;
    StartsAtSplit(s, i, ", " + Quoted(w), more);
  }

  /** `, or "z"?` holds one last suggestion. */
  lemma MoreItemsOfLast(s: string, i: nat, w: string)
    requires IsWord(w) && StartsAt(s, i, ", or " + Quoted(w) + "?")
    ensures MoreItems(s, i) == [w]
  {
    var e := i + |w| + 7;
    StartsAtSplit(s, i, ", or " + Quoted(w), "?");
    OrSeparator(s, i, w);
    StartsAtChar(s, e, "?", 0);
    EndOfList(s, e);
    MoreItemsUnfold(s, i, i + 5, w, e);
    assert [w] + [] == [w];
  }

  /** `, "w"` before a text read as `rest` is read as `[w] + rest`. */
  lemma TailCons(s: string, i: nat, w: string, rest: seq<string>)
    requires IsWord(w) && StartsAt(s, i, ", " + Quoted(w))
    requires MoreItems(s, i + |w| + 4) == rest
    ensures MoreItems(s, i) == [w] + rest
  {
    CommaSeparator(s, i, w);
    MoreItemsUnfold(s, i, i + 2, w, i + |w| + 4);
  }

  /** The entries from `k` on are entry `k` and then those from `k + 1` on. */
  lemma DropCons(ws: seq<string>, k: nat)
    requires k < |ws|
    ensures ws[k..] == [ws[k]] + ws[k + 1..]
  {
  }

  lemma LastOfTail(s: string, i: nat, ws: seq<string>, k: nat)
    requires k == |ws| - 1 && AllWords(ws) && StartsAt(s, i, CommaTail(ws, k) + "?")
    ensures MoreItems(s, i) == ws[k..]
  {
    TailLastLayout(s, i, ws, k);
    MoreItemsOfLast(s, i, ws[k]);
    assert ws[k..] == [ws[k]];
  }

  /** The evident reading of `, "b", ..., or "z"?`: one suggestion per entry. */
  lemma {:induction false} MoreItemsOfTail(s: string, i: nat, ws: seq<string>, k: nat)
    requires k < |ws| && AllWords(ws) && StartsAt(s, i, CommaTail(ws, k) + "?")
    ensures MoreItems(s, i) == ws[k..]
    decreases |ws| - k
  {
    if k == |ws| - 1 {
      LastOfTail(s, i, ws, k);
    } else {
      var e := i + |ws[k]| + 4;
      assert Separator(s, i) == Some(i + 2) && Item(s, i + 2) == Some((ws[k], e))
          && StartsAt(s, e, CommaTail(ws, k + 1) + "?") by {
        TailStepLayout(s, i, ws, k);
        CommaSeparator(s, i, ws[k]);
      }
      MoreItemsOfTail(s, e, ws, k + 1);
      MoreItemsUnfold(s, i, i + 2, ws[k], e);
      DropCons(ws, k);
    }
  }

  /** One more repetition of the source's `(?:,\s*["']?([\w]+)["']?)*`. */
  lemma RepetitionsUnfold(s: string, i: nat, j: nat, w: string, e: nat, last: Option<string>)
    requires i < |s| && s[i] == ',' && SkipSpaces(s, i + 1) == j && Item(s, j) == Some((w, e)) && e <= |s|
    ensures Repetitions(s, i, last) == Repetitions(s, e, Some(w))
  {
  }

  /** The first six characters of `, or "z"?`. */
  lemma OrPrefixChars(s: string, i: nat, z: string)
    requires StartsAt(s, i, ", or " + Quoted(z) + "?")
    ensures i + 6 <= |s| && s[i] == ',' && s[i + 1] == ' ' && s[i + 2] == 'o' && s[i + 3] == 'r'
      && s[i + 4] == ' ' && s[i + 5] == '"'
  {
    assert ", or " + Quoted(z) + "?" == ", or \"" + (z + "\"?");
    StartsAtSplit(s, i, ", or \"", z + "\"?");
    StartsAtChar(s, i, ", or \"", 0);
    StartsAtChar(s, i, ", or \"", 1);
    StartsAtChar(s, i, ", or \"", 2);
    StartsAtChar(s, i, ", or \"", 3);
    StartsAtChar(s, i, ", or \"", 4);
    StartsAtChar(s, i, ", or \"", 5);
  }

  /** After `, `, the word `or` followed by a blank is read as an item. */
  lemma OrWordItem(s: string, j: nat)
    requires j + 3 <= |s| && s[j] == 'o' && s[j + 1] == 'r' && s[j + 2] == ' '
    ensures Item(s, j) == Some(("or", j + 2))
  {
    RunExact(WordClass, s, j, 2);
    assert s[j..j + 2] == "or";
  }

  /** The source's reading of `, or "z"?`: the repetition takes `or` for a
      suggestion, and the optional `or` group then finds nothing. */
  lemma RepetitionsOfLast(s: string, i: nat, z: string, last: Option<string>)
    requires IsWord(z) && StartsAt(s, i, ", or " + Quoted(z) + "?")
    ensures Repetitions(s, i, last) == (Some("or"), i + 4)
    ensures OrItem(s, i + 4).None?
  {
    OrPrefixChars(s, i, z);
    assert SkipSpaces(s, i + 1) == i + 2;
    OrWordItem(s, i + 2);
    RepetitionsUnfold(s, i, i + 2, "or", i + 4, last);
    assert SkipSpaces(s, i + 4) == i + 5;
    DiffersAt(s, i + 5, "or ");
  }

  /** The source's reading of `, "b", ..., or "z"?`: the last repetition is `or`,
      and the optional `or` group finds nothing after it. */
  lemma {:induction false} RepetitionsOfTail(s: string, i: nat, ws: seq<string>, k: nat, last: Option<string>)
    requires k < |ws| && AllWords(ws) && StartsAt(s, i, CommaTail(ws, k) + "?")
    ensures Repetitions(s, i, last).0 == Some("or")
    ensures OrItem(s, Repetitions(s, i, last).1).None?
    decreases |ws| - k
  {
    if k == |ws| - 1 {
      TailLastLayout(s, i, ws, k);
      RepetitionsOfLast(s, i, ws[k], last);
    } else {
      var e := i + |ws[k]| + 4;
      TailStepLayout(s, i, ws, k);
      CommaSeparator(s, i, ws[k]);
      RepetitionsUnfold(s, i, i + 2, ws[k], e, last);
      RepetitionsOfTail(s, e, ws, k + 1, Some(ws[k]));
    }
  }

  /** ` or ` is one separator. */
  lemma SpaceOrSeparator(s: string, e: nat)
    requires e + 1 < |s| && s[e] == ' ' && s[e + 1] == 'o' && StartsAt(s, e + 1, "or ")
    ensures Separator(s, e) == Some(e + 4)
  {
    assert SkipSpaces(s, e + 1) == e + 1;
    assert SkipSpaces(s, e) == e + 1;
  }

  /** At ` or "y"` the source's repetition takes nothing and its `or` group reads `y`. */
  lemma SpaceOrGroups(s: string, e: nat, y: string)
    requires e + 1 < |s| && s[e] == ' ' && s[e + 1] == 'o' && StartsAt(s, e + 1, "or ")
    requires e + 4 <= |s| && Item(s, e + 4) == Some((y, e + 4 + |y| + 2))
    ensures Repetitions(s, e, None) == (None, e) && OrItem(s, e) == Some(y)
  {
    assert SkipSpaces(s, e + 1) == e + 1;
    assert SkipSpaces(s, e) == e + 1;
  }

  /** ` or "y"?` at `e`, as a two-entry list goes on after its first entry. */
  predicate OrAfter(s: string, e: nat, y: string) {
    e + |y| + 6 < |s| && s[e] == ' ' && s[e + 1] == 'o' && StartsAt(s, e + 1, "or ")
    && StartsAt(s, e + 4, Quoted(y)) && s[e + |y| + 6] == '?'
  }

  /** What follows the first entry, `ListRest(ws) + "?"`, laid out in the text from `e`. */
  predicate RestAt(s: string, e: nat, ws: seq<string>)
    requires ws != []
  {
    if |ws| == 1 then e < |s| && s[e] == '?'
    else if |ws| == 2 then OrAfter(s, e, ws[1])
    else StartsAt(s, e, CommaTail(ws, 1) + "?")
  }

  lemma OrLayout(s: string, e: nat, y: string)
    requires StartsAt(s, e, " or " + Quoted(y) + "?")
    ensures OrAfter(s, e, y)
  {
    OrPieces(s, e, Quoted(y));
    StartsAtChar(s, e + 1, "or ", 0);
  }

  /** ` or ` entry `?` at `e`, for any entry text `q`. */
  lemma OrPieces(s: string, e: nat, q: string)
    requires StartsAt(s, e, " or " + q + "?")
    ensures e + |q| + 4 < |s| && s[e] == ' ' && StartsAt(s, e + 1, "or ")
    ensures StartsAt(s, e + 4, q) && s[e + |q| + 4] == '?'
  {
    StartsAtSplit(s, e, " or " + q, "?");
    StartsAtSplit(s, e, " or ", q);
    assert " or " == " " + "or ";
    StartsAtSplit(s, e, " ", "or ");
    StartsAtChar(s, e, " ", 0);
    StartsAtChar(s, e + |q| + 4, "?", 0);
  }

  lemma RestLayout(s: string, e: nat, ws: seq<string>)
    requires ws != [] && StartsAt(s, e, ListRest(ws) + "?")
    ensures RestAt(s, e, ws)
  {
    if |ws| == 1 {
      assert ListRest(ws) + "?" == "?";
      StartsAtChar(s, e, "?", 0);
    } else if |ws| == 2 {
      assert ListRest(ws) + "?" == " or " + Quoted(ws[1]) + "?";
      OrLayout(s, e, ws[1]);
    }
  }

  /** The evident reading of ` or "y"?`. */
  lemma OrRead(s: string, e: nat, y: string)
    requires IsWord(y) && OrAfter(s, e, y)
    ensures MoreItems(s, e) == [y]
  {
    QuotedItem(s, e + 4, y);
    SpaceOrSeparator(s, e);
    EndOfList(s, e + |y| + 6);
    MoreItemsUnfold(s, e, e + 4, y, e + |y| + 6);
    assert [y] + [] == [y];
  }

  /** The evident reading of what follows the first entry: one suggestion per entry. */
  lemma RestRead(s: string, e: nat, ws: seq<string>)
    requires ws != [] && AllWords(ws) && RestAt(s, e, ws)
    ensures MoreItems(s, e) == ws[1..]
  {
    if |ws| == 1 {
      EndOfList(s, e);
      assert ws[1..] == [];
    } else if |ws| == 2 {
      OrRead(s, e, ws[1]);
      assert ws[1..] == [ws[1]];
    } else {
      MoreItemsOfTail(s, e, ws, 1);
    }
  }

  /** The source's groups after the first entry: nothing at `?`, the `or`
      group at ` or "y"?`, the word `or` in the repetition at a comma tail. */
  lemma RestGroupsAsWritten(s: string, e: nat, ws: seq<string>)
    requires ws != [] && AllWords(ws) && RestAt(s, e, ws)
    ensures var (g2, e2) := Repetitions(s, e, None);
      if |ws| == 1 then g2 == None && OrItem(s, e2).None?
      else if |ws| == 2 then g2 == None && OrItem(s, e2) == Some(ws[1])
      else g2 == Some("or") && OrItem(s, e2).None?
  {
    if |ws| == 1 {
      EndOfGroups(s, e);
    } else if |ws| == 2 {
      var y := ws[1];
      QuotedItem(s, e + 4, y);
      SpaceOrGroups(s, e, y);
    } else {
      RepetitionsOfTail(s, e, ws, 1, None);
    }
  }

  /** What the source's pattern reports for a printed list: all of it up to
      two entries, the first and `or` from three on. */
  function AsWrittenReading(ws: seq<string>): seq<string>
    requires ws != []
  {
    if |ws| <= 2 then ws else [ws[0], "or"]
  }

  lemma AllWordsTail(ws: seq<string>)
    requires ws != [] && AllWords(ws)
    ensures IsWord(ws[0]) && AllWords(ws[1..])
  {
    forall j | 0 <= j < |ws| - 1 ensures IsWord(ws[1..][j]) {
      assert ws[1..][j] == ws[j + 1];
    }
  }

  lemma SomesCons(ws: seq<string>)
    requires ws != []
    ensures Somes(ws)[0] == Some(ws[0]) && Somes(ws)[1..] == Somes(ws[1..])
  {
    assert Somes(ws) == [Some(ws[0])] + Somes(ws[1..]);
  }

  lemma PresentCons(g: seq<Option<string>>)
    requires g != [] && g[0].Some? && g[0].value != []
    ensures Present(g) == [g[0].value] + Present(g[1..])
  {
  }

  /** Words are never empty, so none of them is dropped. */
  lemma {:induction false} PresentSomes(ws: seq<string>)
    requires AllWords(ws)
    ensures Present(Somes(ws)) == ws
  {
    if ws != [] {
      SomesCons(ws);
      AllWordsTail(ws);
      PresentSomes(ws[1..]);
      PresentCons(Somes(ws));
      assert ws == [ws[0]] + ws[1..];
    }
  }

  /** Where the phrase, the first entry and the rest of a printed list sit. */
  lemma ListedParts(s: string, i: nat, ws: seq<string>)
    requires ws != []
    requires StartsAt(s, i, DidYouMeanPhrase + SuggestionList(ws) + "?")
    ensures StartsAt(s, i, DidYouMeanPhrase) && StartsAt(s, i + |DidYouMeanPhrase|, Quoted(ws[0]))
    ensures StartsAt(s, i + |DidYouMeanPhrase| + |ws[0]| + 2, ListRest(ws) + "?")
  {
    var k := i + |DidYouMeanPhrase|;
    var q, r := Quoted(ws[0]), ListRest(ws) + "?";
    assert DidYouMeanPhrase + SuggestionList(ws) + "?" == DidYouMeanPhrase + (q + r);
    StartsAtSplit(s, i, DidYouMeanPhrase, q + r);
    StartsAtSplit(s, k, q, r);
  }

  /** The evident groups once the phrase and the first item are read. */
  lemma AllGroupsAtFirst(s: string, i: nat, x: string, e: nat)
    requires i + |DidYouMeanPhrase| <= |s| && StartsAt(s, i, DidYouMeanPhrase)
    requires Item(s, i + |DidYouMeanPhrase|) == Some((x, e))
    ensures AllGroupsAt(s, i) == Some(Somes([x] + MoreItems(s, e)))
  {
  }

  /** The source's three groups once the phrase and the first item are read. */
  lemma GroupsAtFirst(s: string, i: nat, x: string, e: nat)
    requires i + |DidYouMeanPhrase| <= |s| && StartsAt(s, i, DidYouMeanPhrase)
    requires Item(s, i + |DidYouMeanPhrase|) == Some((x, e))
    ensures GroupsAt(s, i) == Some([Some(x), Repetitions(s, e, None).0, OrItem(s, Repetitions(s, e, None).1)])
  {
  }

  /** The evident reading of `ListRest(ws) + "?"`. */
  lemma RestReadText(s: string, e: nat, ws: seq<string>)
    requires ws != [] && AllWords(ws) && StartsAt(s, e, ListRest(ws) + "?")
    ensures MoreItems(s, e) == ws[1..]
  {
    RestLayout(s, e, ws);
    RestRead(s, e, ws);
  }

  /** The source's groups at `ListRest(ws) + "?"`. */
  lemma RestGroupsText(s: string, e: nat, ws: seq<string>)
    requires ws != [] && AllWords(ws) && StartsAt(s, e, ListRest(ws) + "?")
    ensures var (g2, e2) := Repetitions(s, e, None);
      if |ws| == 1 then g2 == None && OrItem(s, e2).None?
      else if |ws| == 2 then g2 == None && OrItem(s, e2) == Some(ws[1])
      else g2 == Some("or") && OrItem(s, e2).None?
  {
    RestLayout(s, e, ws);
    RestGroupsAsWritten(s, e, ws);
  }

  lemma PresentThree(x: string, g2: Option<string>, g3: Option<string>)
    requires x != [] && (g2.Some? ==> g2.value != []) && (g3.Some? ==> g3.value != [])
    ensures Present([Some(x), g2, g3])
      == [x] + (if g2.Some? then [g2.value] else []) + (if g3.Some? then [g3.value] else [])
  {
    var a, b, c := [Some(x), g2, g3], [g2, g3], [g3];
    assert a[1..] == b && b[1..] == c && c[1..] == [];
    assert Present(c) == (if g3.Some? then [g3.value] else []) + Present([]);
  }

  /** The groups `RestGroupsText` finds, with the first entry before them,
      report what `AsWrittenReading` says. */
  lemma AsWrittenOfGroups(ws: seq<string>, g2: Option<string>, g3: Option<string>)
    requires ws != [] && AllWords(ws)
    requires if |ws| == 1 then g2 == None && g3.None?
      else if |ws| == 2 then g2 == None && g3 == Some(ws[1])
      else g2 == Some("or") && g3.None?
    ensures Present([Some(ws[0]), g2, g3]) == AsWrittenReading(ws)
  {
    PresentThree(ws[0], g2, g3);
    assert |ws| == 2 ==> ws == [ws[0], ws[1]];
  }

  lemma ReadAfterPhrase(s: string, i: nat, ws: seq<string>)
    requires ws != [] && AllWords(ws) && StartsAt(s, i, DidYouMeanPhrase)
    requires StartsAt(s, i + |DidYouMeanPhrase|, Quoted(ws[0]))
    requires StartsAt(s, i + |DidYouMeanPhrase| + |ws[0]| + 2, ListRest(ws) + "?")
    ensures AllGroupsAt(s, i) == Some(Somes(ws))
  {
    var k := i + |DidYouMeanPhrase|;
    var e := k + |ws[0]| + 2;
    var x, rest := ws[0], ws[1..];
    assert Item(s, k) == Some((x, e)) by {
      QuotedItem(s, k, x);
    }
    assert MoreItems(s, e) == rest by {
      RestReadText(s, e, ws);
    }
    AllGroupsAtFirst(s, i, x, e);
    assert [x] + rest == ws;
  }

  lemma GroupsAfterPhrase(s: string, i: nat, ws: seq<string>)
    requires ws != [] && AllWords(ws) && StartsAt(s, i, DidYouMeanPhrase)
    requires StartsAt(s, i + |DidYouMeanPhrase|, Quoted(ws[0]))
    requires StartsAt(s, i + |DidYouMeanPhrase| + |ws[0]| + 2, ListRest(ws) + "?")
    ensures GroupsAt(s, i).Some? && Present(GroupsAt(s, i).value) == AsWrittenReading(ws)
  {
    var k := i + |DidYouMeanPhrase|;
    var e := k + |ws[0]| + 2;
    var x := ws[0];
    assert Item(s, k) == Some((x, e)) by {
      QuotedItem(s, k, x);
    }
    GroupsAtFirst(s, i, x, e);
    var (g2, e2) := Repetitions(s, e, None);
    assert if |ws| == 1 then g2 == None && OrItem(s, e2).None?
      else if |ws| == 2 then g2 == None && OrItem(s, e2) == Some(ws[1])
      else g2 == Some("or") && OrItem(s, e2).None?
    by {
      RestGroupsText(s, e, ws);
    }
    AsWrittenOfGroups(ws, g2, OrItem(s, e2));
  }

  /** The evident groups at a `Did you mean` that lists `ws` as graphql-js prints it:
      one per entry. */
  lemma ListedGroups(s: string, i: nat, ws: seq<string>)
    requires ws != [] && AllWords(ws)
    requires StartsAt(s, i, DidYouMeanPhrase + SuggestionList(ws) + "?")
    ensures AllGroupsAt(s, i) == Some(Somes(ws))
  {
    ListedParts(s, i, ws);
    ReadAfterPhrase(s, i, ws);
  }

  /** The source's groups at the same text. */
  lemma ListedGroupsAsWritten(s: string, i: nat, ws: seq<string>)
    requires ws != [] && AllWords(ws)
    requires StartsAt(s, i, DidYouMeanPhrase + SuggestionList(ws) + "?")
    ensures GroupsAt(s, i).Some? && Present(GroupsAt(s, i).value) == AsWrittenReading(ws)
  {
    ListedParts(s, i, ws);
    GroupsAfterPhrase(s, i, ws);
  }

  /** `find()` passes over every start where the phrase does not begin. */
  lemma {:induction false} FindGroupsSkip(s: string, j: nat, i: nat, intended: bool)
    requires j <= i <= |s|
    requires forall k | j <= k < i :: !StartsAt(s, k, DidYouMeanPhrase)
    ensures FindGroups(s, j, intended) == FindGroups(s, i, intended)
    decreases i - j
  {
    if j < i {
      assert !StartsAt(s, j, DidYouMeanPhrase);
      FindGroupsSkip(s, j + 1, i, intended);
    }
  }

  /** A message whose first `Did you mean` lists `ws` as graphql-js prints it
      yields exactly `ws`, in order. */
  lemma ListedSuggestionsRead(s: string, i: nat, ws: seq<string>)
    requires ws != [] && AllWords(ws)
    requires StartsAt(s, i, DidYouMeanPhrase + SuggestionList(ws) + "?")
    requires forall k | 0 <= k < i :: !StartsAt(s, k, DidYouMeanPhrase)
    ensures IntendedSuggestionsOf(s) == ws
  {
    FindGroupsSkip(s, 0, i, true);
    ListedGroups(s, i, ws);
    PresentSomes(ws);
  }

  /** The source's pattern on the same message: the whole list up to two
      entries, the first entry and the word `or` from three on. */
  lemma ListedSuggestionsAsWritten(s: string, i: nat, ws: seq<string>)
    requires ws != [] && AllWords(ws)
    requires StartsAt(s, i, DidYouMeanPhrase + SuggestionList(ws) + "?")
    requires forall k | 0 <= k < i :: !StartsAt(s, k, DidYouMeanPhrase)
    ensures SuggestionsOf(s) == AsWrittenReading(ws)
  {
    FindGroupsSkip(s, 0, i, false);
    ListedGroupsAsWritten(s, i, ws);
  }

  /** The message of a three-entry list. */
  function ThreeListed(): string {
    DidYouMeanPhrase + SuggestionList(["a", "b", "c"]) + "?"
  }

  /** For `Did you mean "a", "b", or "c"?` the source reports `a` and `or`,
      where the message lists `a`, `b` and `c`. */
  lemma ThreeListedAsWritten()
    ensures SuggestionsOf(ThreeListed()) == ["a", "or"]
    ensures IntendedSuggestionsOf(ThreeListed()) == ["a", "b", "c"]
  {
    var s := ThreeListed();
    assert AllWords(["a", "b", "c"]) by {
      assert IsWord("a") && IsWord("b") && IsWord("c");
    }
    ListedSuggestionsAsWritten(s, 0, ["a", "b", "c"]);
    ListedSuggestionsRead(s, 0, ["a", "b", "c"]);
  }
}
