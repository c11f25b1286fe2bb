# graphql-grip core, modelled in Dafny

graphql-grip is a Burp Suite extension for testing GraphQL endpoints. This project models the
core that the rest of the extension relies on, and proves properties of that model:

- **The schema model**: type kinds, type references with their `T`, `T!`, `[T]`, `[T!]!`
  spellings, arguments, fields, enum values, directives, named types, and the schema that
  keeps its types in insertion order. It covers the SDL rendering, the filters and counts,
  and the breadth-first path search between types.
- **Reading an introspection result** into that model. This covers the fold of the
  NON_NULL/LIST wrapper chain, which flattens nested lists, and the Gson accessors that
  throw on a value of the wrong shape.
- **Blind schema reconstruction** for servers with introspection disabled:
  - the wordlist is split into buckets of aliased probes;
  - answers and validation errors are read back into field names;
  - the return type of each Query field is classified;
  - the discovered types are explored from a queue, with an explored set and a depth bound;
  - the result is assembled into a schema.
- **The error-message classifier**: its ordered rule lists over the messages of common
  GraphQL servers, the "did you mean" suggestion extraction, the substring signals and the
  cleanup of type names. The Java regular expressions are written as token patterns, with a
  matcher that backtracks in Java's order.
- **The text generators inside the UI classes**:
  - the schema graph's nodes and edges, its selection text and its argument placeholders;
  - the query a schema tree node generates, the field filter, closing a schema tab and a
    tab's header table;
  - in the request editor: extracting the first field call, the `query=` fallback, the
    field extraction, and the alias, width and depth probe payloads.

Values the source never updates in place are datatypes. Their `add*`/`set*` operations are
functions that return the updated value. Objects whose fields the source updates in place are
classes with `modifies` clauses: the schema, the reconstructor, the graph panel, the tab list
and the request editor. Each loop of the source is a method with its invariants. Each method
is proved against a function that specifies it, and the lemmas state the source's promises
about that function.

The HTTP client of the reconstructor is a parameter. It is a function from endpoint and query
text to a response object or an exception.

## Model

| member | source | states |
|---|---|---|
| TypeKinds.KindOfUpper | src/main/java/com/grip/graphql/model/schema/GripTypeKind.java:39-49 | a kind other than OBJECT comes back only for that kind's own upper-case name |
| TypeKinds.FromIntrospection | src/main/java/com/grip/graphql/model/schema/GripTypeKind.java:37-50 | null gives OBJECT; any other result is the kind whose name is the upper-cased input |
| TypeKinds.KindClassesDisjoint | src/main/java/com/grip/graphql/model/schema/GripTypeKind.java:21-35 | leaf and composite never overlap, every leaf kind is an input kind, a wrapper kind is neither leaf, composite nor input |
| TypeKinds.FromIntrospectionOfName | src/main/java/com/grip/graphql/model/schema/GripTypeKind.java:37-50 | every kind is recovered from its own name written in any letter case |
| TypeKinds.FromIntrospectionIgnoresCase | src/main/java/com/grip/graphql/model/schema/GripTypeKind.java:39 | the lookup gives the same kind for a string, its upper-case and its lower-case form |
| TypeKinds.FromIntrospectionUnknown | src/main/java/com/grip/graphql/model/schema/GripTypeKind.java:48 | a string that is no kind's name in any case maps to OBJECT |
| EnumValues.NewEnumValue | src/main/java/com/grip/graphql/model/schema/GripEnumValue.java:10-12 | a new value keeps its name and is not deprecated, with no reason |
| EnumValues.SetDescription | src/main/java/com/grip/graphql/model/schema/GripEnumValue.java:27-29 | the description is replaced and every other field is kept: the result is the old value with only the description changed |
| EnumValues.SetDeprecated | src/main/java/com/grip/graphql/model/schema/GripEnumValue.java:35-37 | the flag is set to the argument in either direction; name, description and reason are kept |
| EnumValues.SetDeprecationReason | src/main/java/com/grip/graphql/model/schema/GripEnumValue.java:43-48 | the reason is always stored; the value is deprecated afterwards iff it was before or the reason is non-empty |
| EnumValues.ReasonsNeverUndeprecate | src/main/java/com/grip/graphql/model/schema/GripEnumValue.java:43-48 | after any run of reason updates the value is deprecated iff it was or one of the reasons was non-empty, and it is still the same value by name |
| Arguments.NewArgument | src/main/java/com/grip/graphql/model/schema/GripArgument.java:10-13 | a new argument has the given name and type and no default |
| Arguments.SetType | src/main/java/com/grip/graphql/model/schema/GripArgument.java:29-31 | replaces the type; name, description and default are kept |
| Arguments.SetDescription | src/main/java/com/grip/graphql/model/schema/GripArgument.java:37-39 | replaces the description; name, type and default are kept |
| Arguments.SetDefaultValue | src/main/java/com/grip/graphql/model/schema/GripArgument.java:45-47 | replaces the default; name, type and description are kept |
| Arguments.ArgumentToGraphQLString | src/main/java/com/grip/graphql/model/schema/GripArgument.java:57-69 | the text is `name: T` (T the printed reference, or "Unknown" for a null type), followed by ` = default` exactly when there is a default |
| Arguments.RequiredShowsInSignature | src/main/java/com/grip/graphql/model/schema/GripArgument.java:53-69 | for an argument without default and a plain type name, it is required iff its printed signature ends in `!` |
| Arguments.DefaultMakesOptional | src/main/java/com/grip/graphql/model/schema/GripArgument.java:45-55 | giving any argument a default makes it not required and keeps it the same argument by name |
| Arguments.GenerateSampleValue | src/main/java/com/grip/graphql/model/schema/GripArgument.java:71-90 | null type gives "null"; String and ID give `"sample"`, Int `1`, Float `1.0`, Boolean `true`; any other name gives ENUM_VALUE, `{}` or null by kind |
| Arguments.SampleOfBuiltInScalar | src/main/java/com/grip/graphql/model/schema/GripArgument.java:75-79 | a built-in scalar's sample is never "null" and does not depend on the reference's kind |
| Directives.LocationOf | src/main/java/com/grip/graphql/model/schema/GripDirective.java:10-17 | `Location.valueOf`: a found location's name is exactly the input string |
| Directives.LocationRoundTrip | src/main/java/com/grip/graphql/model/schema/GripDirective.java:10-17 | `valueOf(l.name()) == l` for each of the nineteen locations |
| Directives.NewDirective | src/main/java/com/grip/graphql/model/schema/GripDirective.java:25-29 | a new directive has no arguments, no locations and is not repeatable |
| Directives.SetDescription | src/main/java/com/grip/graphql/model/schema/GripDirective.java:39-41 | replaces the description; name, arguments, locations and the repeatable flag are kept |
| Directives.SetRepeatable | src/main/java/com/grip/graphql/model/schema/GripDirective.java:73-75 | replaces the repeatable flag; name, description, arguments and locations are kept |
| Directives.AddArgument | src/main/java/com/grip/graphql/model/schema/GripDirective.java:47-49 | appends the argument, duplicates included; name, description, locations and the repeatable flag are kept |
| Directives.AddLocation | src/main/java/com/grip/graphql/model/schema/GripDirective.java:59-63 | keeps a duplicate-free list duplicate-free, the old list is a prefix, and the new list holds exactly the old locations plus the added one; name, description, arguments and the repeatable flag are kept |
| Directives.AddLocationsValidAt | src/main/java/com/grip/graphql/model/schema/GripDirective.java:59-67 | after adding any sequence of locations the list has no duplicates and `isValidAt(l)` holds iff l was valid before or was added |
| Directives.LocationNames | src/main/java/com/grip/graphql/model/schema/GripDirective.java:100-103 | one `name()` per location, in order |
| Directives.DirectiveToGraphQLString | src/main/java/com/grip/graphql/model/schema/GripDirective.java:81-107 | the text is `directive @name`, then `(a, b)` with the argument texts iff there are arguments, then ` repeatable` iff the flag is set, then ` on A | B` with the location names iff there are locations, in that order |
| Fields.NewField | src/main/java/com/grip/graphql/model/schema/GripField.java:16-20 | a new field has the given name and type, no arguments and is not deprecated |
| Fields.SetType | src/main/java/com/grip/graphql/model/schema/GripField.java:37-39 | replaces the type; every other field is kept |
| Fields.SetDescription | src/main/java/com/grip/graphql/model/schema/GripField.java:45-47 | replaces the description; every other field is kept |
| Fields.SetDeprecated | src/main/java/com/grip/graphql/model/schema/GripField.java:84-86 | sets the flag directly; every other field is kept |
| Fields.SetDeprecationReason | src/main/java/com/grip/graphql/model/schema/GripField.java:92-97 | stores the reason; deprecated afterwards iff deprecated before or the reason is non-empty; name, type, description and arguments are kept |
| Fields.AddArgument | src/main/java/com/grip/graphql/model/schema/GripField.java:53-55 | appends, duplicates included; every other field is kept |
| Fields.GetArgument | src/main/java/com/grip/graphql/model/schema/GripField.java:61-68 | returns the first argument with that name; null iff no argument has it |
| Fields.RequiredArguments | src/main/java/com/grip/graphql/model/schema/GripField.java:70-78 | holds exactly the required arguments of the list |
| Fields.RequiredArgumentsAppend | src/main/java/com/grip/graphql/model/schema/GripField.java:70-78 | the filter distributes over concatenation, so relative order is kept |
| Fields.GetRequiredArguments | src/main/java/com/grip/graphql/model/schema/GripField.java:70-78 | the loop returns the order-preserving filter by `isRequired` |
| Arguments.ArgumentTexts | src/main/java/com/grip/graphql/model/schema/GripField.java:109-112 | one argument text per argument, in order |
| Fields.FieldToGraphQLString | src/main/java/com/grip/graphql/model/schema/GripField.java:103-124 | the text is `name: T` without arguments and `name(a, b): T` with them, the argument texts joined by `, ` in order; T is the printed reference or "Unknown" |
| Fields.SampleArguments | src/main/java/com/grip/graphql/model/schema/GripField.java:133-137 | one `name: sample` pair per argument, in order |
| Fields.OptionalArgumentsIgnored | src/main/java/com/grip/graphql/model/schema/GripField.java:126-142 | adding an optional argument leaves the generated selection unchanged: only required arguments are listed |
| TypeRefs.DetermineKind | src/main/java/com/grip/graphql/model/schema/GripTypeRef.java:70-88 | SCALAR exactly for the built-in and common custom scalar names; otherwise INPUT_OBJECT exactly for names ending in "Input"; otherwise ENUM exactly for names ending in "Enum" or all upper case and longer than 4; OBJECT exactly when none of these applies |
| TypeRefs.InputSuffixGuess | src/main/java/com/grip/graphql/model/schema/GripTypeRef.java:70-82 | every name ending in "Input" is guessed to be INPUT_OBJECT, since no known scalar name has that ending |
| TypeRefs.EnumSuffixGuess | src/main/java/com/grip/graphql/model/schema/GripTypeRef.java:70-86 | every name ending in "Enum" is guessed to be ENUM, since no known scalar name ends in "Enum" and it does not end in "Input" |
| TypeRefs.Simple | src/main/java/com/grip/graphql/model/schema/GripTypeRef.java:30-32 | the reference is the name, its guessed kind and no wrapper flag; it prints as the bare name |
| TypeRefs.NonNull | src/main/java/com/grip/graphql/model/schema/GripTypeRef.java:34-36 | the reference is the name, its guessed kind and only the non-null flag; it prints as `name!` |
| TypeRefs.List | src/main/java/com/grip/graphql/model/schema/GripTypeRef.java:38-40 | the reference is the name, its guessed kind, the list flag and the two non-null flags as given; it prints as `[name]` with `!` inside iff the items are non-null and `!` outside iff the list is |
| TypeRefs.StripBang | src/main/java/com/grip/graphql/model/schema/GripTypeRef.java:48-51 | putting the stripped `!` back rebuilds the input |
| TypeRefs.StripBrackets | src/main/java/com/grip/graphql/model/schema/GripTypeRef.java:53-57 | putting the stripped brackets back rebuilds the input |
| TypeRefs.Unwrap | src/main/java/com/grip/graphql/model/schema/GripTypeRef.java:47-62 | an inner `!` is only read inside a list, and re-wrapping the remainder with the three flags rebuilds the trimmed text |
| TypeRefs.StripBangOf | src/main/java/com/grip/graphql/model/schema/GripTypeRef.java:48-51 | on text without a trailing `!`, stripping undoes adding one |
| TypeRefs.StripBracketsOf | src/main/java/com/grip/graphql/model/schema/GripTypeRef.java:53-57 | on text that is not already bracketed, stripping undoes bracketing |
| TypeRefs.FromString | src/main/java/com/grip/graphql/model/schema/GripTypeRef.java:42-68 | null iff the input is null or empty; the kind is always the one guessed from the base name; a non-null item implies a list |
| TypeRefs.PrintedForm | src/main/java/com/grip/graphql/model/schema/GripTypeRef.java:118-126 | the printed text is the name wrapped, in order, by the item `!`, the brackets and the outer `!`, each present iff its flag is set |
| TypeRefs.UnwrapPrinted | src/main/java/com/grip/graphql/model/schema/GripTypeRef.java:47-62 | unwrapping a printed reference with a plain name gives back the name and the three flags |
| TypeRefs.RoundTrip | src/main/java/com/grip/graphql/model/schema/GripTypeRef.java:42-68 | `fromString(toGraphQLString(r)) == r` for a plain non-empty name, an item `!` only inside a list, and the guessed kind |
| TypeRefs.UnwrapNested | src/main/java/com/grip/graphql/model/schema/GripTypeRef.java:53-62 | `[t]` with `t` itself bracketed loses only the outer brackets |
| TypeRefs.NestedListKeepsInnerBrackets | src/main/java/com/grip/graphql/model/schema/GripTypeRef.java:53-64 | only one list level is stripped: `[[n]]` parses to a list whose base name is `[n]` |
| TypeRefs.BracketedNameIsObject | src/main/java/com/grip/graphql/model/schema/GripTypeRef.java:70-88 | the base name `[T]` is guessed to be OBJECT |
| TypeRefs.NestedListExample | src/main/java/com/grip/graphql/model/schema/GripTypeRef.java:42-88 | `fromString("[[T]]")` is the nullable list of the OBJECT type named `[T]` |
| GripTypes.NewType | src/main/java/com/grip/graphql/model/schema/GripType.java:22-30 | a new type has the name and kind given and all five lists empty |
| GripTypes.SetDescription | src/main/java/com/grip/graphql/model/schema/GripType.java:44-46 | replaces the description only |
| GripTypes.AddField | src/main/java/com/grip/graphql/model/schema/GripType.java:52-54 | appends the field at the end, and the type then has fields |
| GripTypes.AddInterface | src/main/java/com/grip/graphql/model/schema/GripType.java:73-75 | appends the interface only |
| GripTypes.AddPossibleType | src/main/java/com/grip/graphql/model/schema/GripType.java:81-83 | appends the member type only |
| GripTypes.AddEnumValue | src/main/java/com/grip/graphql/model/schema/GripType.java:89-91 | appends the value only |
| GripTypes.AddEnumValueNamed | src/main/java/com/grip/graphql/model/schema/GripType.java:93-95 | appends a fresh value of that name, which is not deprecated |
| GripTypes.AddInputField | src/main/java/com/grip/graphql/model/schema/GripType.java:101-103 | appends the input field only |
| GripTypes.GetField | src/main/java/com/grip/graphql/model/schema/GripType.java:56-63 | returns the first field with that name; null iff none has it |
| GripTypes.BuiltInScalarShape | src/main/java/com/grip/graphql/model/schema/GripType.java:105-121 | a built-in scalar is a leaf, not composite and not an introspection type, and stays the same built-in scalar when a field is appended |
| GripTypes.FieldTexts | src/main/java/com/grip/graphql/model/schema/GripType.java:143-145 | one field text per field, in order |
| GripTypes.EnumValueNames | src/main/java/com/grip/graphql/model/schema/GripType.java:167-169 | one name per enum value, in order |
| GripTypes.BuildHeader | src/main/java/com/grip/graphql/model/schema/GripType.java:130-181 | the switch builds the header `Header(t)` of the type's kind |
| GripTypes.ToSDL | src/main/java/com/grip/graphql/model/schema/GripType.java:123-185 | the builder yields `SDL(t)`: description block, header, and for block kinds ` {`, one line per member and `}` |
| GripTypes.JoinLoop | src/main/java/com/grip/graphql/model/schema/GripType.java:137-140 | the `if (i > 0) append(sep)` loop yields the separator-joined parts |
| GripTypes.LinesLoop | src/main/java/com/grip/graphql/model/schema/GripType.java:143-145 | the member loop yields one indented line per item |
| GripTypes.DescriptionIsPrefix | src/main/java/com/grip/graphql/model/schema/GripType.java:126-128 | the description only adds a prefix block, and a null or empty one adds nothing |
| GripTypes.AddFieldAddsLine | src/main/java/com/grip/graphql/model/schema/GripType.java:142-146 | adding a field to an object or interface adds exactly its line after the existing ones |
| GripTypes.AddEnumValueAddsLine | src/main/java/com/grip/graphql/model/schema/GripType.java:165-171 | adding a value to an enum adds exactly its name line after the existing ones |
| GripTypes.FieldsOnlyShowOnObjectsAndInterfaces | src/main/java/com/grip/graphql/model/schema/GripType.java:130-181 | for every other kind, adding a field leaves the SDL unchanged |
| Schemas.ValuesInOrder | src/main/java/com/grip/graphql/model/schema/GripSchema.java:79-81 | the values of the insertion-ordered map: one per key in order, each the type stored under that key |
| Schemas.PutKeepsPosition | src/main/java/com/grip/graphql/model/schema/GripSchema.java:66-69 | re-putting a stored name replaces its value in place: every other position keeps its type |
| Schemas.FiltersKeepExactly | src/main/java/com/grip/graphql/model/schema/GripSchema.java:87-105 | getTypesByKind, getUserTypes and getUnexploredTypes keep a type exactly when it is stored and passes their test (both directions) |
| Schemas.UnexploredAreUserObjects | src/main/java/com/grip/graphql/model/schema/GripSchema.java:180-191 | an unexplored type is a user type of kind OBJECT with no fields |
| Schemas.FieldCountZero | src/main/java/com/grip/graphql/model/schema/GripSchema.java:172-178 | the total field count is zero exactly when no stored type has a field |
| Schemas.DistinctCard | src/main/java/com/grip/graphql/model/schema/GripSchema.java:168-170 | a duplicate-free key list has as many elements as the set of keys, so the type count is the number of names |
| Schemas.OnlyUserTypesRendered | src/main/java/com/grip/graphql/model/schema/GripSchema.java:251-255 | the SDL's type section is the same as that of the user types alone: introspection types and built-in scalars add nothing |
| Schemas.CustomDirectivesKeepExactly | src/main/java/com/grip/graphql/model/schema/GripSchema.java:257-261 | a directive is rendered in the SDL exactly when it is listed and not built in |
| Schemas.OnlyCustomDirectivesRendered | src/main/java/com/grip/graphql/model/schema/GripSchema.java:257-261 | the SDL's directive section is the same as that of the custom directives alone |
| Schemas.IsPathExtend | src/main/java/com/grip/graphql/model/schema/GripSchema.java:218-224 | appending a field and its return type to a path that ends on the field's owner gives a path from the same start to that type |
| Schemas.PathStaysInClosedSet | src/main/java/com/grip/graphql/model/schema/GripSchema.java:202-227 | a path that starts in a set closed under field return types never leaves it |
| Schemas.EndsPop | src/main/java/com/grip/graphql/model/schema/GripSchema.java:203 | polling the queue removes the head path's end from the set of queued ends |
| Schemas.EndsPush | src/main/java/com/grip/graphql/model/schema/GripSchema.java:224 | queueing a path adds exactly its end to the set of queued ends |
| Schemas.Schema.constructor | src/main/java/com/grip/graphql/model/schema/GripSchema.java:20-25 | a new schema has no types, no directives, no root names, no cached SDL and is neither partial nor reconstructed |
| Schemas.Schema.SetQueryTypeName | src/main/java/com/grip/graphql/model/schema/GripSchema.java:31-34 | sets the query root name, drops the cached SDL and changes nothing else |
| Schemas.Schema.SetMutationTypeName | src/main/java/com/grip/graphql/model/schema/GripSchema.java:40-43 | sets the mutation root name, drops the cached SDL and changes nothing else |
| Schemas.Schema.SetSubscriptionTypeName | src/main/java/com/grip/graphql/model/schema/GripSchema.java:49-52 | sets the subscription root name, drops the cached SDL and changes nothing else |
| Schemas.Schema.SetSourceEndpoint | src/main/java/com/grip/graphql/model/schema/GripSchema.java:144-146 | sets the endpoint and keeps the cache and everything else |
| Schemas.Schema.SetPartial | src/main/java/com/grip/graphql/model/schema/GripSchema.java:156-158 | sets the partial flag and keeps the cache and everything else |
| Schemas.Schema.SetReconstructed | src/main/java/com/grip/graphql/model/schema/GripSchema.java:164-166 | sets the reconstructed flag and keeps the cache and everything else |
| Schemas.Schema.AddType | src/main/java/com/grip/graphql/model/schema/GripSchema.java:66-69 | the type is stored under its name; a new name goes last in the order and a known one keeps its place; the cache is dropped and the index stays consistent |
| Schemas.Schema.GetType | src/main/java/com/grip/graphql/model/schema/GripSchema.java:71-73 | a type comes back exactly when the name is stored, and it is the stored type of that name |
| Schemas.Schema.RootFields | src/main/java/com/grip/graphql/model/schema/GripSchema.java:54-64 | the fields of the stored root type; empty when the root name is unset or names no stored type (getQueries, getMutations, getSubscriptions, lines 107-120) |
| Schemas.Schema.AddDirective | src/main/java/com/grip/graphql/model/schema/GripSchema.java:122-125 | the directive is appended, the cache dropped, everything else kept |
| Schemas.Schema.GetDirective | src/main/java/com/grip/graphql/model/schema/GripSchema.java:131-138 | the first directive with the given name, or none exactly when no directive has that name |
| Schemas.Schema.TypeCount | src/main/java/com/grip/graphql/model/schema/GripSchema.java:168-170 | the number of stored types equals the length of the insertion order and of the value list |
| Schemas.Schema.GetTypesByKind | src/main/java/com/grip/graphql/model/schema/GripSchema.java:87-95 | the loop returns the types of that kind in map order |
| Schemas.Schema.GetUserTypes | src/main/java/com/grip/graphql/model/schema/GripSchema.java:97-105 | the loop returns the user types in map order |
| Schemas.Schema.GetUnexploredTypes | src/main/java/com/grip/graphql/model/schema/GripSchema.java:180-191 | the loop returns the field-less, non-built-in OBJECT types in map order |
| Schemas.Schema.GetTotalFieldCount | src/main/java/com/grip/graphql/model/schema/GripSchema.java:172-178 | the loop returns the sum of the field-list lengths |
| Schemas.Schema.FindPathToType | src/main/java/com/grip/graphql/model/schema/GripSchema.java:193-230 | a non-empty answer starts at the query type, ends at the target and follows declared fields; an empty one means no such path exists (or no query type is set) |
| Schemas.Schema.ToSDL | src/main/java/com/grip/graphql/model/schema/GripSchema.java:232-265 | the answer is the SDL of the current contents (header, user types in map order, custom directives), and it is cached; nothing else changes |
| Schemas.SearchFrom | src/main/java/com/grip/graphql/model/schema/GripSchema.java:195-229 | the breadth-first search is sound (a path it returns is real) and complete (an empty answer means the target is unreachable) |
| Schemas.Step | src/main/java/com/grip/graphql/model/schema/GripSchema.java:203-226 | one round keeps the search invariant and decreases the measure, or returns a real path to the target |
| Schemas.PopFacts | src/main/java/com/grip/graphql/model/schema/GripSchema.java:203-216 | the head path is a real path from the root; dropping it when its end is visited or unknown keeps the invariant |
| Schemas.ExpandFacts | src/main/java/com/grip/graphql/model/schema/GripSchema.java:213-226 | marking the head's type visited and queueing its fields keeps the invariant |
| Schemas.Exhausted | src/main/java/com/grip/graphql/model/schema/GripSchema.java:202-229 | once the queue is empty no path from the root reaches the target |
| Schemas.VisitShrinks | src/main/java/com/grip/graphql/model/schema/GripSchema.java:213 | marking a new name visited leaves fewer unvisited names |
| Schemas.PathsFromTail | src/main/java/com/grip/graphql/model/schema/GripSchema.java:203 | the rest of the queue still holds only real paths from the root |
| Schemas.FrontierPop | src/main/java/com/grip/graphql/model/schema/GripSchema.java:210-216 | skipping a visited or unknown type keeps every visited type's fields covered |
| Schemas.FrontierExpand | src/main/java/com/grip/graphql/model/schema/GripSchema.java:213-226 | expanding a type keeps every visited type's fields covered |
| Schemas.Expand | src/main/java/com/grip/graphql/model/schema/GripSchema.java:218-226 | queued paths stay real; each field's return type is visited or at the end of a queued path; queued ends grow only by field return types |
| Schemas.BuildSchemaHeader | src/main/java/com/grip/graphql/model/schema/GripSchema.java:239-249 | the header lists exactly the set root names, in query, mutation, subscription order |
| Schemas.BuildTypeBlocks | src/main/java/com/grip/graphql/model/schema/GripSchema.java:251-255 | the loop appends each user type's SDL and a blank line, in map order |
| Schemas.BuildDirectiveLines | src/main/java/com/grip/graphql/model/schema/GripSchema.java:257-261 | the loop appends each custom directive's text and a newline, in order |
| Schemas.AppendDirective | src/main/java/com/grip/graphql/model/schema/GripSchema.java:258-260 | one round appends the directive's line only when it is not built in |
| Introspection.OptBoolean | src/main/java/com/grip/graphql/schema/IntrospectionHandler.java:308-310 | an absent flag is skipped; a present one is the member read as a boolean |
| Introspection.ParseTypeNode | src/main/java/com/grip/graphql/schema/IntrospectionHandler.java:361-402 | whatever the depth of the wrapper chain, a reference with non-null items is a list |
| Introspection.ParseTypeRef | src/main/java/com/grip/graphql/schema/IntrospectionHandler.java:361-362 | null reads as null; an object is read by the node reader |
| Introspection.NamedNodeRead | src/main/java/com/grip/graphql/schema/IntrospectionHandler.java:361-399 | a named node of a non-wrapper kind gives that name, the kind read from the kind text, and no wrapper flags |
| Introspection.KindlessNodeIsObject | src/main/java/com/grip/graphql/schema/IntrospectionHandler.java:396-398 | a named node without a kind is an OBJECT reference |
| Introspection.WrapperNodeRead | src/main/java/com/grip/graphql/schema/IntrospectionHandler.java:368-394 | a NON_NULL or LIST node reads as its inner node wrapped, null when the inner one is null, and throws when it throws |
| Introspection.NonNullKeepsListFlags | src/main/java/com/grip/graphql/schema/IntrospectionHandler.java:375-382 | NON_NULL keeps name, kind and both list flags of the wrapped reference and sets non-null |
| Introspection.ListTakesItemNullability | src/main/java/com/grip/graphql/schema/IntrospectionHandler.java:383-390 | LIST gives a nullable list whose items are non-null exactly when the wrapped reference was non-null |
| Introspection.NonNullListOfNonNull | src/main/java/com/grip/graphql/schema/IntrospectionHandler.java:368-399 | NON_NULL(LIST(NON_NULL(T))) reads as [T!]! |
| Introspection.NestedListsFlatten | src/main/java/com/grip/graphql/schema/IntrospectionHandler.java:383-390 | LIST(LIST(x)) reads the same as LIST(x) for a nullable x: list nesting is flattened |
| Introspection.BareWrapperIsNull | src/main/java/com/grip/graphql/schema/IntrospectionHandler.java:368-401 | a wrapper with a missing or null ofType and no name reads as null |
| Introspection.Collect | src/main/java/com/grip/graphql/schema/IntrospectionHandler.java:315-325 | an array loop collects at most one entry per array element |
| Introspection.CollectLoop | src/main/java/com/grip/graphql/schema/IntrospectionHandler.java:315-325 | the for-each loop returns exactly what the collecting fold gives, throwing as soon as an element throws |
| Introspection.CollectThrowsOnward | src/main/java/com/grip/graphql/schema/IntrospectionHandler.java:212-216 | an exception in one element ends the whole loop with the exception |
| Introspection.NonNulls | src/main/java/com/grip/graphql/schema/IntrospectionHandler.java:247-292 | skipping JSON nulls leaves no null and never lengthens the array |
| Introspection.CollectSkipsNulls | src/main/java/com/grip/graphql/schema/IntrospectionHandler.java:247-292 | a loop that skips JSON nulls is the same as reading the non-null entries in order |
| Introspection.ParsedArgumentRequired | src/main/java/com/grip/graphql/schema/IntrospectionHandler.java:344-359 | a parsed argument keeps the name it was given, and is required exactly when its type reads as non-null and no non-null default is given |
| Introspection.ParsedFieldDeprecation | src/main/java/com/grip/graphql/schema/IntrospectionHandler.java:297-328 | a parsed field is deprecated exactly when the flag is true or a non-empty reason is given; its arguments are its non-null argument entries in order |
| Introspection.ParseInputField | src/main/java/com/grip/graphql/schema/IntrospectionHandler.java:330-342 | an input field has no arguments and is never deprecated |
| Introspection.ParseEnumValue | src/main/java/com/grip/graphql/schema/IntrospectionHandler.java:275-289 | an enum value entry reads its name as a string, and throws when the name is missing or null |
| Introspection.WithMembers | src/main/java/com/grip/graphql/schema/IntrospectionHandler.java:247-292 | the member loops keep name, kind and description, and fill fields and enum values from their arrays in order |
| Introspection.ParseType | src/main/java/com/grip/graphql/schema/IntrospectionHandler.java:233-236 | a type without a non-null name is null; a parsed type carries the given name |
| Introspection.ParsedTypeKind | src/main/java/com/grip/graphql/schema/IntrospectionHandler.java:238-239 | a missing kind gives OBJECT; otherwise the kind is read from the kind text |
| Introspection.ParsedTypeFields | src/main/java/com/grip/graphql/schema/IntrospectionHandler.java:247-292 | a type's fields and enum values are those of its non-null entries, in order |
| Introspection.AddLocationItems | src/main/java/com/grip/graphql/schema/IntrospectionHandler.java:414-424 | the locations loop keeps the directive's name and arguments |
| Introspection.LocationItemsRead | src/main/java/com/grip/graphql/schema/IntrospectionHandler.java:414-424 | after the loop each location is listed once, and the directive is valid exactly at the locations it had and those some entry names; unknown names are dropped |
| Introspection.ParseDirective | src/main/java/com/grip/graphql/schema/IntrospectionHandler.java:404-408 | a parsed directive carries the given name |
| Introspection.ParsedDirectiveLocations | src/main/java/com/grip/graphql/schema/IntrospectionHandler.java:404-439 | a parsed directive lists each location once and is valid exactly where its location entries say |
| Introspection.RootName | src/main/java/com/grip/graphql/schema/IntrospectionHandler.java:191-208 | a missing or null root object gives no root name |
| Introspection.Stored | src/main/java/com/grip/graphql/schema/IntrospectionHandler.java:210-218 | after adding each type every type's name is stored, each under its own name |
| Introspection.FirstNames | src/main/java/com/grip/graphql/schema/IntrospectionHandler.java:210-218 | the insertion order holds each stored name once and no other |
| Introspection.AddTypes | src/main/java/com/grip/graphql/schema/IntrospectionHandler.java:210-218 | the types loop leaves the map holding the last type of each name, in first-insertion order, and nothing else changed |
| Introspection.AddDirectives | src/main/java/com/grip/graphql/schema/IntrospectionHandler.java:220-228 | the directives loop appends the parsed directives in order and changes nothing else |
| Introspection.ParseIntrospectionResult | src/main/java/com/grip/graphql/schema/IntrospectionHandler.java:187-231 | the read succeeds exactly when no Gson call throws; then the schema has the given root names, the parsed types by name, the parsed directives in order, the endpoint, and is neither partial nor reconstructed |
| Reconstruction.BucketsShape | src/main/java/com/grip/graphql/schema/SchemaReconstructor.java:419-425 | the buckets give back the list in order; none is empty or larger than the bucket size, and all but the last are full |
| Reconstruction.CreateBuckets | src/main/java/com/grip/graphql/schema/SchemaReconstructor.java:419-425 | the index loop builds exactly the consecutive slices of the bucket size |
| Reconstruction.AliasesDiffer | src/main/java/com/grip/graphql/schema/SchemaReconstructor.java:172-175 | different candidate positions get different aliases, so an alias in the answer names one candidate |
| Reconstruction.AppendAliases | src/main/java/com/grip/graphql/schema/SchemaReconstructor.java:172-176 | the query text is the prefix followed by " gN: name" for each candidate N, in order |
| Reconstruction.DataObject | src/main/java/com/grip/graphql/schema/SchemaReconstructor.java:181-182 | no data object exactly when data is missing or null; otherwise the data member's object |
| Reconstruction.MessageFinds | src/main/java/com/grip/graphql/schema/SchemaReconstructor.java:194-207 | a message yields the field it names when it signals a valid field, and every name it suggests, and nothing else |
| Reconstruction.ErrorsFindsFromMessages | src/main/java/com/grip/graphql/schema/SchemaReconstructor.java:191-209 | every name the errors loop finds comes from the readable message of an object entry |
| Reconstruction.ReadErrors | src/main/java/com/grip/graphql/schema/SchemaReconstructor.java:191-209 | the errors loop returns the union of what each object entry's message yields, and stops when a message cannot be read |
| Reconstruction.ReadMessage | src/main/java/com/grip/graphql/schema/SchemaReconstructor.java:195-206 | one message's contribution is the named field and the suggestions |
| Reconstruction.DataHits | src/main/java/com/grip/graphql/schema/SchemaReconstructor.java:183-188 | a candidate is a data hit exactly when its alias is a key of the data object, whatever the value |
| Reconstruction.ReadDataHits | src/main/java/com/grip/graphql/schema/SchemaReconstructor.java:183-189 | the data loop returns exactly the data hits |
| Reconstruction.ProbeBucket | src/main/java/com/grip/graphql/schema/SchemaReconstructor.java:166-219 | the bucket probe returns what the client's answer to the aliased query yields: data hits and error finds, nothing on a failed request |
| Reconstruction.AliasPresenceFinds | src/main/java/com/grip/graphql/schema/SchemaReconstructor.java:181-189 | a candidate is found by the presence of its alias even when the value is null |
| Reconstruction.UnionMembers | src/main/java/com/grip/graphql/schema/SchemaReconstructor.java:139-163 | a name is in the merged finds exactly when some bucket yields it |
| Reconstruction.ExtractFieldsFromData | src/main/java/com/grip/graphql/schema/SchemaReconstructor.java:360-385 | the loop walks the path's words through nested objects and returns every key of the object reached, empty when the walk fails |
| Reconstruction.NestedKeysStayRaw | src/main/java/com/grip/graphql/schema/SchemaReconstructor.java:374-382 | alias keys such as g0 are kept as they are, not mapped back to candidate names |
| Reconstruction.NestedBucket | src/main/java/com/grip/graphql/schema/SchemaReconstructor.java:309-355 | one nested bucket yields the keys under the path and the error finds of the client's answer |
| Reconstruction.ClassifyField | src/main/java/com/grip/graphql/schema/SchemaReconstructor.java:228-270 | an exception in the request gives an exception; a task is queued only with a type set, and only at depth 1, under the field's name, for that type when it is not yet explored |
| Reconstruction.TypenameAnswer | src/main/java/com/grip/graphql/schema/SchemaReconstructor.java:235-249 | a data answer naming the field's type gives that type as a simple reference and queues it when unexplored |
| Reconstruction.TypenameAnswerAny | src/main/java/com/grip/graphql/schema/SchemaReconstructor.java:235-251 | for any answer with no error message whose data member for the field is an object with a `__typename` string t: the field gets the simple reference t, and t is queued at depth 1 under the field iff it is not explored |
| Reconstruction.ObjectSignalAnswer | src/main/java/com/grip/graphql/schema/SchemaReconstructor.java:252-262 | for any answer whose first error signals an object type and names a type: the field gets the simple reference of that name without wrapper characters, queued at depth 1 iff not explored |
| Reconstruction.ScalarAnswerQueuesNothing | src/main/java/com/grip/graphql/schema/SchemaReconstructor.java:263-269 | a scalar error message types the field as SCALAR and queues nothing |
| Reconstruction.Retyped | src/main/java/com/grip/graphql/schema/SchemaReconstructor.java:244-268 | re-typing a field keeps its name and arguments |
| Reconstruction.RetypedFields | src/main/java/com/grip/graphql/schema/SchemaReconstructor.java:225-279 | after the type probes the Query type has the same field names in the same order |
| Reconstruction.NewTasksShape | src/main/java/com/grip/graphql/schema/SchemaReconstructor.java:246-261 | every queued task is at depth 1, for a type not explored yet, under the name of a Query field; at most one per field |
| Reconstruction.ProbeEachField | src/main/java/com/grip/graphql/schema/SchemaReconstructor.java:225-279 | the field loop returns the re-typed fields and the queued tasks, in field order |
| Reconstruction.ProbedShape | src/main/java/com/grip/graphql/schema/SchemaReconstructor.java:282-301 | the loop probes at most one task per queued task, only tasks within the depth bound for types not explored before, each type once |
| Reconstruction.NewObjectType | src/main/java/com/grip/graphql/schema/SchemaReconstructor.java:294-298 | a built type is OBJECT under the given name with one Unknown-typed field per name found, each once |
| Reconstruction.FoundMap | src/main/java/com/grip/graphql/schema/SchemaReconstructor.java:291-300 | only probed types with a non-empty result are recorded |
| Reconstruction.ExploredStep | src/main/java/com/grip/graphql/schema/SchemaReconstructor.java:293-300 | recording one probe keeps the discovered map in step with what the probes found |
| Reconstruction.WithScalars | src/main/java/com/grip/graphql/schema/SchemaReconstructor.java:403-406 | after the scalar loop the names are those discovered plus the five scalars |
| Reconstruction.ScalarsOverride | src/main/java/com/grip/graphql/schema/SchemaReconstructor.java:403-406 | the five built-in scalars replace any discovered type of the same name; other types are kept |
| Reconstruction.WordLines | src/main/java/com/grip/graphql/schema/SchemaReconstructor.java:453-460 | the kept lines are never more than the file's lines |
| Reconstruction.WordLinesFromFile | src/main/java/com/grip/graphql/schema/SchemaReconstructor.java:455-460 | every kept word is the trimmed text of a non-blank, non-comment line |
| Reconstruction.WordLinesKeepAll | src/main/java/com/grip/graphql/schema/SchemaReconstructor.java:455-460 | every non-blank, non-comment line is kept, trimmed |
| Reconstruction.LoadWordlist | src/main/java/com/grip/graphql/schema/SchemaReconstructor.java:444-478 | the word lines of the resource, or the default list when the resource is missing or has no word line; never empty |
| Reconstruction.Reconstructor.constructor | src/main/java/com/grip/graphql/schema/SchemaReconstructor.java:51-59 | a new reconstructor has the loaded wordlist, no discovered or explored types, an empty queue and is not cancelled |
| Reconstruction.Reconstructor.Cancel | src/main/java/com/grip/graphql/schema/SchemaReconstructor.java:65-67 | sets the cancelled flag and changes nothing else |
| Reconstruction.Reconstructor.SetWordlist | src/main/java/com/grip/graphql/schema/SchemaReconstructor.java:524-527 | the wordlist becomes the given words |
| Reconstruction.Reconstructor.AddToWordlist | src/main/java/com/grip/graphql/schema/SchemaReconstructor.java:520-522 | the words are appended, duplicates kept |
| Reconstruction.Reconstructor.ProbeRootType | src/main/java/com/grip/graphql/schema/SchemaReconstructor.java:132-164 | the finds are the union over the 64-candidate buckets of what each probe yields; nothing when cancelled |
| Reconstruction.Reconstructor.ProbeTypeFields | src/main/java/com/grip/graphql/schema/SchemaReconstructor.java:304-358 | the finds are the union over the 32-candidate buckets of what each nested probe yields under the path; nothing when cancelled |
| Reconstruction.Reconstructor.ProbeFieldTypes | src/main/java/com/grip/graphql/schema/SchemaReconstructor.java:221-280 | without a Query type, or when cancelled, nothing changes; otherwise the Query fields are re-typed and the new tasks queued at the end |
| Reconstruction.Reconstructor.ExploreDiscoveredTypes | src/main/java/com/grip/graphql/schema/SchemaReconstructor.java:282-302 | the queue is drained; the explored set grows by exactly the probed types, and the discovered map gains or replaces exactly the probed types that had fields |
| Reconstruction.Reconstructor.ExploreNext | src/main/java/com/grip/graphql/schema/SchemaReconstructor.java:284-300 | one round drops the head task and probes it exactly when it is within the depth bound and its type is new |
| Reconstruction.Reconstructor.RecordType | src/main/java/com/grip/graphql/schema/SchemaReconstructor.java:293-300 | a probed type with fields is stored as an OBJECT type of Unknown-typed fields; one without fields is not stored |
| Reconstruction.Reconstructor.BuildSchema | src/main/java/com/grip/graphql/schema/SchemaReconstructor.java:387-409 | the schema holds the discovered types with the five scalars over them, discovered names first; Query and Mutation roots only when discovered; reconstructed, not partial |
| Reconstruction.Reconstructor.ReconstructSchema | src/main/java/com/grip/graphql/schema/SchemaReconstructor.java:69-130 | no Query field gives the empty, partial schema; otherwise Query is the query root, Mutation is a root when it had fields, every other type was explored, and the scalars are added |
| Reconstruction.Reconstructor.ProbeAndExplore | src/main/java/com/grip/graphql/schema/SchemaReconstructor.java:110-114 | types already discovered stay, and every type added was explored |
| Reconstruction.Reconstructor.DiscoverRootTypes | src/main/java/com/grip/graphql/schema/SchemaReconstructor.java:74-108 | after the reset, Query holds its found fields when there are any, and Mutation is stored exactly when it had fields |
| Reconstruction.Reconstructor.DiscoverRoot | src/main/java/com/grip/graphql/schema/SchemaReconstructor.java:99-108 | a root with fields becomes an OBJECT type of Unknown-typed fields; one without fields changes nothing |
| Reconstruction.Reconstructor.GetAllDiscoveredFields | src/main/java/com/grip/graphql/schema/SchemaReconstructor.java:510-518 | every field name of every discovered type, and no other |
| Reconstruction.AddDiscoveredTypes | src/main/java/com/grip/graphql/schema/SchemaReconstructor.java:392-394 | the values loop stores exactly the discovered types, in some hash order |
| Reconstruction.AddScalarTypes | src/main/java/com/grip/graphql/schema/SchemaReconstructor.java:403-406 | the scalar loop stores the five scalars over the types, new names after the discovered ones |
| Reconstruction.CreateEmptySchema | src/main/java/com/grip/graphql/schema/SchemaReconstructor.java:411-417 | no types, no roots, the endpoint, partial and reconstructed |
| Patterns.Run | src/main/java/com/grip/graphql/schema/regex/GripRegexStore.java:30 | a greedy class run takes every class character from the start and stops at the first one outside the class |
| Patterns.Match | src/main/java/com/grip/graphql/schema/regex/GripRegexStore.java:29-103 | a match of a pattern from a position yields exactly one non-empty class run per capture group, after the groups already taken |
| Patterns.TryAlts | src/main/java/com/grip/graphql/schema/regex/GripRegexStore.java:93-95 | a non-capturing alternation yields the captures of the rest of the pattern |
| Patterns.TryEnds | src/main/java/com/grip/graphql/schema/regex/GripRegexStore.java:49-51 | a greedy quantifier, tried from its longest end down, yields a class run for its group when it captures |
| Patterns.FindFrom | src/main/java/com/grip/graphql/schema/regex/GripRegexStore.java:110-111 | the search yields the captures of a match, and finds nothing exactly when no start at or after the position matches |
| Patterns.Find | src/main/java/com/grip/graphql/schema/regex/GripRegexStore.java:110-111 | `find` yields the captures of a match, and nothing exactly when the pattern matches nowhere |
| Patterns.FindAtStart | src/main/java/com/grip/graphql/schema/regex/GripRegexStore.java:110-111 | a match at the very start is the one `find` reports |
| Patterns.MatchPrefix | src/main/java/com/grip/graphql/schema/regex/GripRegexStore.java:85-99 | whatever a pattern matches, every prefix of that pattern also matches from the same start |
| Patterns.FindPrefix | src/main/java/com/grip/graphql/schema/regex/GripRegexStore.java:85-99 | a message some pattern finds is also found by every prefix of that pattern |
| Patterns.LiteralOccurs | src/main/java/com/grip/graphql/schema/regex/GripRegexStore.java:37-43 | a literal part of a pattern that matches occurs in the text at or after the match start |
| RegexStore.Build | src/main/java/com/grip/graphql/schema/regex/GripRegexStore.java:112-249 | the result carries the error type of the rule that matched |
| RegexStore.FirstRule | src/main/java/com/grip/graphql/schema/regex/GripRegexStore.java:105-186 | the rule chosen is the first, in the fixed order, whose pattern is found; every earlier one is not found |
| RegexStore.Extract | src/main/java/com/grip/graphql/schema/regex/GripRegexStore.java:106-108 | a null or empty message gives null |
| RegexStore.ExtractFieldInfo | src/main/java/com/grip/graphql/schema/regex/GripRegexStore.java:105-186 | a null or empty message gives null |
| RegexStore.ExtractArgumentInfo | src/main/java/com/grip/graphql/schema/regex/GripRegexStore.java:188-219 | a null or empty message gives null |
| RegexStore.ExtractTypeInfo | src/main/java/com/grip/graphql/schema/regex/GripRegexStore.java:221-253 | a null or empty message gives null |
| RegexStore.FieldRuleOrder | src/main/java/com/grip/graphql/schema/regex/GripRegexStore.java:105-186 | a non-empty message gives no result exactly when no field rule is found, and otherwise the error type of the first rule found |
| RegexStore.RelayNeverReturned | src/main/java/com/grip/graphql/schema/regex/GripRegexStore.java:153-177 | the RELAY_UNKNOWN_FIELD result never comes back: the Juniper rule, tried earlier, finds every message the Relay rule would |
| RegexStore.ScalarTypeIsBare | src/main/java/com/grip/graphql/schema/regex/GripRegexStore.java:125-130 | a SCALAR_TYPE result has a type, and it holds no list or non-null marker |
| RegexStore.FieldNotFoundMatches | src/main/java/com/grip/graphql/schema/regex/GripRegexStore.java:29-31 | the first rule finds the field and type names in `Cannot query field "f" on type "T"` |
| RegexStore.FieldNotFoundReadsFieldAndType | src/main/java/com/grip/graphql/schema/regex/GripRegexStore.java:110-116 | that message gives FIELD_NOT_FOUND with field f and type T |
| RegexStore.StripWrapperChars | src/main/java/com/grip/graphql/schema/regex/GripRegexStore.java:312 | the result is no longer than the input and holds no `[`, `]` or `!` |
| RegexStore.NormalizeTypeName | src/main/java/com/grip/graphql/schema/regex/GripRegexStore.java:310-313 | null stays null; a name comes back without wrapper characters |
| RegexStore.StripAppend | src/main/java/com/grip/graphql/schema/regex/GripRegexStore.java:312 | removing the wrapper characters distributes over concatenation |
| RegexStore.StripKeepsBare | src/main/java/com/grip/graphql/schema/regex/GripRegexStore.java:312 | a name without wrapper characters is left as it is |
| RegexStore.NormalizeIdempotent | src/main/java/com/grip/graphql/schema/regex/GripRegexStore.java:310-313 | normalizing twice is the same as normalizing once |
| RegexStore.NormalizePrintedRef | src/main/java/com/grip/graphql/schema/regex/GripRegexStore.java:310-313 | normalizing the printed form of a type reference gives back its base name |
| RegexStore.WrapperTestsOnPrintedRef | src/main/java/com/grip/graphql/schema/regex/GripRegexStore.java:315-321 | on a printed reference, isListType holds exactly for lists and isNonNullType exactly for non-null references |
| RegexStore.SelectionMatchesAreSignals | src/main/java/com/grip/graphql/schema/regex/GripRegexStore.java:288-308 | a message the OBJECT_TYPE rule finds is a valid-field and object-type signal; one the SCALAR_TYPE rule finds is a valid-field and scalar-type signal |
| RegexStore.Item | src/main/java/com/grip/graphql/schema/regex/GripRegexStore.java:34 | one suggestion item is a non-empty word, and reading it moves forward |
| RegexStore.Repetitions | src/main/java/com/grip/graphql/schema/regex/GripRegexStore.java:34 | the repeated group moves forward only, and keeps a word once it has one |
| RegexStore.Present | src/main/java/com/grip/graphql/schema/regex/GripRegexStore.java:261-266 | only the groups that are neither null nor empty are kept, in group order |
| RegexStore.QuotedAt | src/main/java/com/grip/graphql/schema/regex/GripRegexStore.java:274 | a quoted word is a non-empty word, and reading it moves forward |
| RegexStore.ExtractSuggestions | src/main/java/com/grip/graphql/schema/regex/GripRegexStore.java:255-286 | null gives nothing; otherwise the non-empty groups of the first DID_YOU_MEAN match, as the pattern captures them, or, when there are none, the fallback quoted words (see `RegexStore.Fallback`) |
| RegexStore.Collect | src/main/java/com/grip/graphql/schema/regex/GripRegexStore.java:276-281 | the quoted-word loop keeps every word it started with, in place, and adds no word twice |
| RegexStore.CollectAddsQuoted | src/main/java/com/grip/graphql/schema/regex/GripRegexStore.java:276-281 | every word the loop adds occurs quoted in the text at or after where the loop started |
| RegexStore.CollectKeepsFirst | src/main/java/com/grip/graphql/schema/regex/GripRegexStore.java:276-281 | the first quoted word from where the loop started always ends up in the result |
| RegexStore.QuotedWords | src/main/java/com/grip/graphql/schema/regex/GripRegexStore.java:274-281 | every quoted word collected occurs quoted in the text, and none twice |
| RegexStore.Fallback | src/main/java/com/grip/graphql/schema/regex/GripRegexStore.java:269-283 | no word twice; nothing unless the lower-cased message contains "did you mean"; otherwise the quoted words of the text from its first occurrence on |
| RegexStore.ListedSuggestionsRead | src/main/java/com/grip/graphql/schema/regex/GripRegexStore.java:255-286 | under the corrected reading, a message whose first `Did you mean` lists suggestions as graphql-js prints them yields exactly those suggestions, in order |
| RegexStore.ListedSuggestionsAsWritten | src/main/java/com/grip/graphql/schema/regex/GripRegexStore.java:33-35 | the pattern as written, on the same message, reports the whole list for one or two entries, but only the first entry and the word `or` for three or more |
| RegexStore.ThreeListedAsWritten | src/main/java/com/grip/graphql/schema/regex/GripRegexStore.java:33-35 | for `Did you mean "a", "b", or "c"?` the pattern as written reports `a` and `or`; the corrected reading reports `a`, `b` and `c` |
| Json.Get | src/main/java/com/grip/graphql/schema/IntrospectionHandler.java:276 | a member's value comes back exactly when the object has the key, and it is a value stored under that key |
| Json.KeySet | src/main/java/com/grip/graphql/schema/SchemaReconstructor.java:374 | the key set holds exactly the keys the object has |
| Json.GetAsJsonObject | src/main/java/com/grip/graphql/schema/IntrospectionHandler.java:301 | a missing member gives null; a present one is returned only when it is an object |
| Json.GetAsJsonArray | src/main/java/com/grip/graphql/schema/SchemaReconstructor.java:329 | a missing member gives null; a present one is returned only when it is an array |
| Json.ArrayMember | src/main/java/com/grip/graphql/schema/IntrospectionHandler.java:247-248 | the array under the key when it is one, otherwise nothing to loop over |
| Json.GetAsString | src/main/java/com/grip/graphql/schema/IntrospectionHandler.java:276 | a string gives its text; JSON null and objects throw |
| Json.GetAsBoolean | src/main/java/com/grip/graphql/schema/IntrospectionHandler.java:309 | a boolean gives its value; JSON null and objects throw |
| Json.AsObject | src/main/java/com/grip/graphql/schema/IntrospectionHandler.java:213 | an element is read as an object exactly when it is one; otherwise the call throws |
| Json.OptString | src/main/java/com/grip/graphql/schema/IntrospectionHandler.java:234-235 | a missing or null member gives null; otherwise the member read as a string |
| Json.StringIfPresent | src/main/java/com/grip/graphql/schema/IntrospectionHandler.java:298 | a missing member gives null; a JSON null member throws |
| Text.ToLower | src/main/java/com/grip/graphql/schema/regex/GripRegexStore.java:269 | the same length, each character lower-cased |
| Text.ToUpper | src/main/java/com/grip/graphql/model/schema/GripTypeKind.java:39 | the same length, each character upper-cased |
| Text.IndexOf | src/main/java/com/grip/graphql/schema/regex/GripRegexStore.java:271 | -1 exactly when the text does not contain the pattern; otherwise the first position where it starts |
| Text.Trim | src/main/java/com/grip/graphql/schema/SchemaReconstructor.java:456 | the result neither starts nor ends with a trimmable character and is no longer than the input |
| Text.TrimIsSlice | src/main/java/com/grip/graphql/schema/SchemaReconstructor.java:456 | the result is the slice of the input between a leading and a trailing run of trimmable characters |
| Text.TrimKeeps | src/main/java/com/grip/graphql/schema/SchemaReconstructor.java:456 | a string without trimmable ends is left as it is |
| Text.TrimBlank | src/main/java/com/grip/graphql/schema/SchemaReconstructor.java:456-457 | a string of trimmable characters only trims to the empty string |
| Text.SplitOnSpaces | src/main/java/com/grip/graphql/schema/SchemaReconstructor.java:363 | no piece holds a whitespace character; the pieces together hold every non-whitespace character of the text, in order; no piece after the first is empty |
| Text.SplitOnSpacesOfWord | src/main/java/com/grip/graphql/schema/SchemaReconstructor.java:363 | a path without whitespace is a single segment |
| MainTab.ScalarPlaceholderForms | src/main/java/com/grip/graphql/ui/GripMainTab.java:1733-1743 | Int, Float and Boolean get bare literals and every other name a quoted string, "example" exactly for String; no scalar placeholder holds a brace |
| MainTab.InputEntries | src/main/java/com/grip/graphql/ui/GripMainTab.java:1748-1753 | one `name: value` entry per input field, in order, the value being the scalar placeholder of the field's type |
| MainTab.InputPlaceholderFirstThree | src/main/java/com/grip/graphql/ui/GripMainTab.java:1745-1756 | an input placeholder shows exactly three entries once there are three fields, and fields after the third never change it |
| MainTab.PlaceholderValueForms | src/main/java/com/grip/graphql/ui/GripMainTab.java:1715-1731 | a list gets one scalar item in brackets; the value is an object exactly when the type is stored and is an input object or is named "...Input"; an unknown name gets its scalar placeholder; a missing name acts as String |
| MainTab.FieldsWalk | src/main/java/com/grip/graphql/ui/GripMainTab.java:1767-1786 | the field loop counts at most one line per field, expands at most three fields, none at depth 3 or more, and writes nothing when it counts nothing |
| MainTab.FieldStep | src/main/java/com/grip/graphql/ui/GripMainTab.java:1770-1785 | one field either adds one line or changes nothing; it adds an expansion only while depth < 3 and fewer than three fields were expanded |
| MainTab.TypenameFallback | src/main/java/com/grip/graphql/ui/GripMainTab.java:1761-1790 | an unknown type, or a type whose loop shows no line, yields exactly the indented `__typename` line |
| MainTab.ReturnFieldsBalanced | src/main/java/com/grip/graphql/ui/GripMainTab.java:1758-1791 | the return-field lines open and close the same number of braces at every depth |
| MainTab.FieldsWalkBalanced | src/main/java/com/grip/graphql/ui/GripMainTab.java:1767-1786 | the text of the field loop stays brace-balanced after every field |
| MainTab.LeafLineBalanced | src/main/java/com/grip/graphql/ui/GripMainTab.java:1776 | a leaf field's line keeps the text balanced |
| MainTab.BlockLinesBalanced | src/main/java/com/grip/graphql/ui/GripMainTab.java:1780-1782 | an expanded field's block (name and brace, body, closing brace) keeps the text balanced when its body is |
| MainTab.ArgumentValues | src/main/java/com/grip/graphql/ui/GripMainTab.java:1697-1703 | one `name: value` text per argument |
| MainTab.ArgumentValueAt | src/main/java/com/grip/graphql/ui/GripMainTab.java:1699-1702 | the i-th argument text is the i-th argument's name followed by the placeholder of its type |
| MainTab.JoinBalanced | src/main/java/com/grip/graphql/ui/GripMainTab.java:1698-1699 | joining balanced parts with a brace-free separator gives a balanced text |
| MainTab.PlaceholderBalanced | src/main/java/com/grip/graphql/ui/GripMainTab.java:1715-1731 | every argument placeholder is balanced: only an input object has braces, one pair around its entries |
| MainTab.InputPlaceholderBalanced | src/main/java/com/grip/graphql/ui/GripMainTab.java:1745-1756 | an input-object placeholder holds one pair of braces around brace-free entries |
| MainTab.EntryBalanced | src/main/java/com/grip/graphql/ui/GripMainTab.java:1751-1752 | one entry of an input placeholder holds no brace |
| MainTab.ArgumentListBalanced | src/main/java/com/grip/graphql/ui/GripMainTab.java:1696-1705 | the parenthesised argument list is balanced when argument names are brace-free |
| MainTab.QueryBalanced | src/main/java/com/grip/graphql/ui/GripMainTab.java:1690-1713 | the generated query opens and closes as many braces as it has whenever the names in it are brace-free |
| MainTab.OpeningLine | src/main/java/com/grip/graphql/ui/GripMainTab.java:1707 | appending " {" and a newline to a balanced text leaves exactly one brace open |
| MainTab.MatchesFilter | src/main/java/com/grip/graphql/ui/GripMainTab.java:1195-1209 | true exactly when the lower-cased field name, return-type name or some argument name contains the filter |
| MainTab.MatchesIgnoresCase | src/main/java/com/grip/graphql/ui/GripMainTab.java:1196 | upper-casing the field name changes no filter result |
| MainTab.HeadersOf | src/main/java/com/grip/graphql/ui/GripMainTab.java:1824-1836 | every header name is non-empty and already trimmed |
| MainTab.HeadersKeyOrigin | src/main/java/com/grip/graphql/ui/GripMainTab.java:1830-1832 | every header comes from some row whose trimmed name is that header |
| MainTab.HeadersKeyPresent | src/main/java/com/grip/graphql/ui/GripMainTab.java:1830-1832 | every row with a non-blank name puts its trimmed name in the map |
| MainTab.HeadersKeys | src/main/java/com/grip/graphql/ui/GripMainTab.java:1824-1836 | a header is present exactly when some row names it |
| MainTab.HeadersLastWins | src/main/java/com/grip/graphql/ui/GripMainTab.java:1827-1834 | a header holds the trimmed value of the last row naming it, or "" when that value is null |
| MainTab.SchemaTabData.constructor | src/main/java/com/grip/graphql/ui/GripMainTab.java:1820-1822 | a new tab has its name, an empty endpoint and no header table |
| MainTab.SchemaTabData.GetHeaders | src/main/java/com/grip/graphql/ui/GripMainTab.java:1824-1836 | no header table gives an empty map; otherwise the headers of its rows |
| MainTab.HeadersFromRows | src/main/java/com/grip/graphql/ui/GripMainTab.java:1827-1834 | the row loop computes exactly the headers of the rows |
| MainTab.IndexOfTab | src/main/java/com/grip/graphql/ui/GripMainTab.java:1005 | the first position holding the tab, or -1 exactly when the tab is absent |
| MainTab.SchemaTabs.constructor | src/main/java/com/grip/graphql/ui/GripMainTab.java:717-718 | the tab list starts with the first tab, selected |
| MainTab.SchemaTabs.CloseSchemaTab | src/main/java/com/grip/graphql/ui/GripMainTab.java:1004-1017 | a present tab is removed unless it is the only one, the selection moving to the same position clamped to the new end; the last tab is never removed and closing it sets the status message; the list never becomes empty |
| MainTab.SchemaTreeNode.constructor | src/main/java/com/grip/graphql/ui/GripMainTab.java:1665-1669 | a node keeps its field, operation type and schema |
| MainTab.SchemaTreeNode.GenerateQuery | src/main/java/com/grip/graphql/ui/GripMainTab.java:1690-1713 | the query is the lower-cased operation keyword, the field with its argument list and the return fields from depth 2, so it is brace-balanced by QueryBalanced |
| MainTab.SchemaTreeNode.AppendArguments | src/main/java/com/grip/graphql/ui/GripMainTab.java:1696-1705 | nothing for no arguments, else the comma-joined argument texts in parentheses |
| MainTab.SchemaTreeNode.GetPlaceholderValue | src/main/java/com/grip/graphql/ui/GripMainTab.java:1715-1731 | the placeholder of the type's name and list flag, as PlaceholderValueForms describes it |
| MainTab.SchemaTreeNode.BuildInputPlaceholder | src/main/java/com/grip/graphql/ui/GripMainTab.java:1745-1756 | the entries of the first three fields at most, comma-joined in braces |
| MainTab.SchemaTreeNode.AddReturnFields | src/main/java/com/grip/graphql/ui/GripMainTab.java:1758-1791 | appends exactly the return-field lines of the type at that depth |
| MainTab.SchemaTreeNode.AddField | src/main/java/com/grip/graphql/ui/GripMainTab.java:1770-1785 | one loop step appends the field's line or block and updates the two counters as FieldStep does |
| SchemaGraph.ValuesTyped | src/main/java/com/grip/graphql/ui/SchemaGraphPanel.java:178 | the types of a schema listed in order all carry a type reference on every field |
| SchemaGraph.GraphNodes | src/main/java/com/grip/graphql/ui/SchemaGraphPanel.java:178-186 | every node is a shown type under its own name; every type not named `__...` gets its node; never more nodes than types |
| SchemaGraph.FieldEdges | src/main/java/com/grip/graphql/ui/SchemaGraphPanel.java:194-201 | one type's edges all start at that type, come from its own fields and end at another node; every field returning another node has its edge |
| SchemaGraph.GraphEdges | src/main/java/com/grip/graphql/ui/SchemaGraphPanel.java:188-202 | every edge joins two distinct nodes, starts at a shown type and comes from a field of that type |
| SchemaGraph.GraphEdgesComplete | src/main/java/com/grip/graphql/ui/SchemaGraphPanel.java:188-202 | every field of a shown type that returns another shown type has its edge |
| SchemaGraph.GraphShape | src/main/java/com/grip/graphql/ui/SchemaGraphPanel.java:171-203 | the graph holds no introspection type, no self-loop, and every edge joins two of its nodes |
| SchemaGraph.Stub | src/main/java/com/grip/graphql/ui/SchemaGraphPanel.java:836-839 | the `{ __typename }` stub of a subfield stays on its line |
| SchemaGraph.SelectionBlock | src/main/java/com/grip/graphql/ui/SchemaGraphPanel.java:824-844 | a stored type other than SCALAR and ENUM at depth three or less gets a braced block of its subfield lines, closed at the field's own indent |
| SchemaGraph.SelectionEmpty | src/main/java/com/grip/graphql/ui/SchemaGraphPanel.java:810-817 | nothing is appended exactly when the field's type is unknown, SCALAR or ENUM |
| SchemaGraph.SubfieldLinesCount | src/main/java/com/grip/graphql/ui/SchemaGraphPanel.java:829-841 | each listed subfield takes exactly one line |
| SchemaGraph.SelectionBodyCount | src/main/java/com/grip/graphql/ui/SchemaGraphPanel.java:828-842 | a selection body has min(6, n) subfield lines, plus one `__typename` line exactly when more than six fields exist |
| SchemaGraph.SelectionLines | src/main/java/com/grip/graphql/ui/SchemaGraphPanel.java:809-845 | a selection block spans the opening line, at most six subfield lines and one `__typename` line when fields were left out |
| SchemaGraph.PlaceholderForms | src/main/java/com/grip/graphql/ui/SchemaGraphPanel.java:847-858 | Int, Float and Boolean give 0, 0.0 and true, and only they give a bare literal; String and ID give `"<VALUE>"`, any other name its upper-cased `"<NAME>"`; a missing name acts as String |
| SchemaGraph.EdgesOfFields | src/main/java/com/grip/graphql/ui/SchemaGraphPanel.java:194-201 | the field loop of one type yields exactly that type's edges |
| SchemaGraph.NodesFrom | src/main/java/com/grip/graphql/ui/SchemaGraphPanel.java:178-186 | the first loop yields exactly the graph's nodes and a name index holding each node under its own name |
| SchemaGraph.GraphPanel.constructor | src/main/java/com/grip/graphql/ui/SchemaGraphPanel.java:53 | a new panel has no schema, no node, no edge and an empty index |
| SchemaGraph.GraphPanel.SetSchema | src/main/java/com/grip/graphql/ui/SchemaGraphPanel.java:158-162 | stores the schema and rebuilds the graph: empty for no schema, else the nodes and edges of its types |
| SchemaGraph.GraphPanel.BuildGraphFromSchema | src/main/java/com/grip/graphql/ui/SchemaGraphPanel.java:171-203 | clears nodes, edges and index; no schema leaves them empty; otherwise the nodes of the shown types, the index of their names and the edges between them |
| SchemaGraph.GraphPanel.AddNodes | src/main/java/com/grip/graphql/ui/SchemaGraphPanel.java:178-186 | fills nodes and index with the shown types, leaving edges alone |
| SchemaGraph.GraphPanel.AddEdges | src/main/java/com/grip/graphql/ui/SchemaGraphPanel.java:188-202 | appends the edges of every shown type, leaving nodes and index alone |
| SchemaGraph.GraphPanel.AddFieldEdges | src/main/java/com/grip/graphql/ui/SchemaGraphPanel.java:191-201 | appends the edges of one type's fields |
| SchemaGraph.GraphPanel.AppendSelection | src/main/java/com/grip/graphql/ui/SchemaGraphPanel.java:809-845 | appends exactly the selection of the field at that depth: nothing for unknown, SCALAR or ENUM types, a `{ __typename }` stub beyond depth 3, otherwise the block |
| SchemaGraph.GraphPanel.AppendSubfields | src/main/java/com/grip/graphql/ui/SchemaGraphPanel.java:824-842 | the subfield loop appends the first six subfield lines and `__typename` when a seventh field is reached |
| SchemaGraph.GraphPanel.WriteSubfield | src/main/java/com/grip/graphql/ui/SchemaGraphPanel.java:833-840 | one subfield line: the indent, the name, a stub for an OBJECT type below depth 2, a newline |
| RequestEditor.IntToString | src/main/java/com/grip/graphql/editor/GripRequestEditor.java:1138 | the decimal text of a number is never empty and holds no brace and no line break |
| RequestEditor.NatDigits | src/main/java/com/grip/graphql/editor/GripRequestEditor.java:1138 | the decimal text of a natural number is made of digits only |
| RequestEditor.CloseFrom | src/main/java/com/grip/graphql/editor/GripRequestEditor.java:785-799 | the scan reports a position at or after where it starts, and that position holds a `}` |
| RequestEditor.CloseFromCorrect | src/main/java/com/grip/graphql/editor/GripRequestEditor.java:785-799 | the scan finds the brace that brings the depth back to zero, or reports none exactly when the first brace is never closed |
| RequestEditor.ClosesUnique | src/main/java/com/grip/graphql/editor/GripRequestEditor.java:791-796 | the brace closing the first brace is unique |
| RequestEditor.FieldCallSound | src/main/java/com/grip/graphql/editor/GripRequestEditor.java:775-804 | an extracted call is the trimmed text strictly between the first `{` and the brace closing it, with something between them |
| RequestEditor.FieldCallComplete | src/main/java/com/grip/graphql/editor/GripRequestEditor.java:775-804 | conversely, a closed first brace with text inside always yields that trimmed text |
| RequestEditor.FieldCallUnclosed | src/main/java/com/grip/graphql/editor/GripRequestEditor.java:801-804 | a first brace that is never closed yields null |
| RequestEditor.TrimBraces | src/main/java/com/grip/graphql/editor/GripRequestEditor.java:802 | trimming removes no brace |
| RequestEditor.InsideBalanced | src/main/java/com/grip/graphql/editor/GripRequestEditor.java:785-799 | the text strictly between a brace and the brace closing it is balanced |
| RequestEditor.FieldCallBalanced | src/main/java/com/grip/graphql/editor/GripRequestEditor.java:775-804 | an extracted call has as many closing braces as opening ones |
| RequestEditor.QueryParameter | src/main/java/com/grip/graphql/editor/GripRequestEditor.java:1623-1627 | there is a value exactly when the text contains `query=` |
| RequestEditor.QueryParameterPlace | src/main/java/com/grip/graphql/editor/GripRequestEditor.java:1624-1627 | the value starts right after the first `query=`, holds no `&`, and runs to the next `&` or the end |
| RequestEditor.KeywordEnd | src/main/java/com/grip/graphql/editor/GripRequestEditor.java:746 | a matched operation keyword ends after its start and within the query |
| RequestEditor.WordEnd | src/main/java/com/grip/graphql/editor/GripRequestEditor.java:755 | a `\w+` run covers only word characters and stops at the first other character or the end |
| RequestEditor.OperationTypeKnown | src/main/java/com/grip/graphql/editor/GripRequestEditor.java:746-752 | the operation type is always query, mutation or subscription, and it is the keyword the query starts with, whatever its letter case |
| RequestEditor.BraceWordAt | src/main/java/com/grip/graphql/editor/GripRequestEditor.java:766 | the simple pattern captures a `\w+` word |
| RequestEditor.SkipArguments | src/main/java/com/grip/graphql/editor/GripRequestEditor.java:755 | skipping an argument list never moves backwards nor past the end |
| RequestEditor.Attempts | src/main/java/com/grip/graphql/editor/GripRequestEditor.java:758-759 | one attempt per start position of the query, the end included |
| RequestEditor.FindLeftmost | src/main/java/com/grip/graphql/editor/GripRequestEditor.java:758-759 | a found name comes from the leftmost position where the pattern matches |
| RequestEditor.FindNone | src/main/java/com/grip/graphql/editor/GripRequestEditor.java:758-769 | a search fails exactly when the pattern matches at no position |
| RequestEditor.FieldPatternIsBraceWord | src/main/java/com/grip/graphql/editor/GripRequestEditor.java:754-757 | every name the full pattern captures is also a word the simple pattern captures after some `{` |
| RequestEditor.FieldNameIsBraceWord | src/main/java/com/grip/graphql/editor/GripRequestEditor.java:754-770 | a found field name is a word following a `{` and blanks; a query without `{` yields no name |
| RequestEditor.AliasLabelsDistinct | src/main/java/com/grip/graphql/editor/GripRequestEditor.java:823-825 | different alias numbers give different alias labels |
| RequestEditor.WidthLinesAreAliasLines | src/main/java/com/grip/graphql/editor/GripRequestEditor.java:1180-1182 | the width probe's lines are exactly the alias lines of `__typename` |
| RequestEditor.AliasLinesBraces | src/main/java/com/grip/graphql/editor/GripRequestEditor.java:823-825 | n alias lines add n copies of the field call's braces |
| RequestEditor.AliasLinesBreaks | src/main/java/com/grip/graphql/editor/GripRequestEditor.java:823-825 | n alias lines of a one-line field call add exactly n lines |
| RequestEditor.AliasLinesPrefix | src/main/java/com/grip/graphql/editor/GripRequestEditor.java:823-825 | the line for alias m follows the lines for the aliases before it, in order |
| RequestEditor.AliasOverloadBalanced | src/main/java/com/grip/graphql/editor/GripRequestEditor.java:817-830 | the alias payload is balanced whenever the field call is, as every extracted call is |
| RequestEditor.AliasBlockShape | src/main/java/com/grip/graphql/editor/GripRequestEditor.java:1178-1183 | alias lines of a brace-free one-line field after a one-brace header, then `}`, are balanced and take one line per alias |
| RequestEditor.WidthProbeShape | src/main/java/com/grip/graphql/editor/GripRequestEditor.java:1175-1188 | the width probe has its header line plus exactly one line per alias (none for a negative width) and balanced braces |
| RequestEditor.IndentGrow | src/main/java/com/grip/graphql/editor/GripRequestEditor.java:1146 | `indent += "  "` adds one indentation step |
| RequestEditor.IndentShrink | src/main/java/com/grip/graphql/editor/GripRequestEditor.java:1158 | an indentation of one step or more is at least two blanks long, and `substring(2)` removes exactly one step |
| RequestEditor.OpeningsCounts | src/main/java/com/grip/graphql/editor/GripRequestEditor.java:1144-1153 | n opening rounds add 3n opening braces and no closing one |
| RequestEditor.ClosingsCounts | src/main/java/com/grip/graphql/editor/GripRequestEditor.java:1157-1164 | the closing rounds add three closing braces each and no opening one |
| RequestEditor.DepthProbeShape | src/main/java/com/grip/graphql/editor/GripRequestEditor.java:1135-1173 | the depth probe opens 3·depth + 2 braces (none per level for a negative depth) and closes every one |
| RequestEditor.AliasOverload | src/main/java/com/grip/graphql/editor/GripRequestEditor.java:821-826 | the loop builds exactly the alias payload: the header, one alias line per i below the count, then `}` |
| RequestEditor.WidthProbe | src/main/java/com/grip/graphql/editor/GripRequestEditor.java:1177-1183 | the loop builds exactly the width payload |
| RequestEditor.DepthStart | src/main/java/com/grip/graphql/editor/GripRequestEditor.java:1137-1142 | the header is the query line and the `__schema` line, the indentation then two steps |
| RequestEditor.DepthOpening | src/main/java/com/grip/graphql/editor/GripRequestEditor.java:1137-1155 | the first half of the probe: header, opening rounds, innermost `name` line |
| RequestEditor.OpeningLoop | src/main/java/com/grip/graphql/editor/GripRequestEditor.java:1144-1153 | n opening rounds, the indentation grown by three steps per round |
| RequestEditor.OpenRound | src/main/java/com/grip/graphql/editor/GripRequestEditor.java:1145-1152 | one opening round writes types, name, fields, name, type at growing indentations |
| RequestEditor.DepthClosing | src/main/java/com/grip/graphql/editor/GripRequestEditor.java:1157-1168 | the second half of the probe: the closing rounds innermost first, then the `__schema` and query braces; every `substring(2)` is in range |
| RequestEditor.CloseRound | src/main/java/com/grip/graphql/editor/GripRequestEditor.java:1158-1163 | one closing round writes three `}` lines at shrinking indentations |
| RequestEditor.GripRequestEditor.constructor | src/main/java/com/grip/graphql/editor/GripRequestEditor.java:38-58 | the field initialisers: mode query, field `__typename`, no call, operation query, no mutation name, counters 100, 10, 500, 50, 10, 50 |
| RequestEditor.GripRequestEditor.ResetConfigToDefaults | src/main/java/com/grip/graphql/editor/GripRequestEditor.java:220-236 | the six counters return to 100, 10, 500, 50, 10, 50, the status says so, and nothing else changes |
| RequestEditor.GripRequestEditor.ExtractFullFieldCall | src/main/java/com/grip/graphql/editor/GripRequestEditor.java:775-804 | null input gives null; otherwise the field call of the query as FieldCallSound and FieldCallComplete characterise it |
| RequestEditor.GripRequestEditor.ExtractFieldFromQuery | src/main/java/com/grip/graphql/editor/GripRequestEditor.java:738-773 | null or empty input resets the name to `__typename` and the call and mutation name to null; otherwise the operation type, the field name (kept when no pattern matches), the mutation name (set only for a mutation the full pattern matches) and the field call are refreshed, and nothing else changes |
| RequestEditor.GripRequestEditor.ApplyAliasOverloading | src/main/java/com/grip/graphql/editor/GripRequestEditor.java:817-830 | the payload is the alias text of the extracted call, or of the field name when there is none, repeated aliasCount times; status and mode set; nothing else changes |
| RequestEditor.GripRequestEditor.ApplyWidthProbe | src/main/java/com/grip/graphql/editor/GripRequestEditor.java:1175-1188 | the payload is the width probe text; status and mode set; nothing else changes |
| RequestEditor.GripRequestEditor.ApplyDepthProbe | src/main/java/com/grip/graphql/editor/GripRequestEditor.java:1135-1173 | the payload is the depth probe text; status and mode set; nothing else changes |

## Left out

- **Concurrency and timing in the reconstructor.** The thread pool, the semaphore, the futures,
  the `totalProbes`/`successfulProbes` counters, `delay()`, the progress callback, `shutdown`
  and `getDiscoveredTypeCount` are not modelled; the counters are reporting only. The model
  is one sequential run. Each bucket's finds are merged by set union, which is what the
  pipelined requests produce.
- **Cancellation.** `cancelled` is checked where a sequential run can observe it: at the start
  of each phase and loop. A cancel arriving from another thread in the middle of a loop is
  not modelled.
- **The outer `catch` of `reconstructSchema`.** No modelled step throws past the per-probe
  handlers, so that branch is unreachable in the model.
- **Hash-set and hash-map iteration.** The order of a hash set or map (candidate names,
  `discoveredTypes.values()`) is unspecified in Java. The model allows any order:
  `Reconstruction.AddDiscoveredTypes` picks names with `:|`, and the lemmas hold whatever
  order is picked.
- **Network calls.** `IntrospectionHandler.fetchSchema` and `isIntrospectionEnabled` are not
  modelled. The HTTP client (sending, headers, retries, pacing) is a function parameter.
- **Regular expressions.** The Java `java.util.regex` engine itself is not modelled. The
  classifier's patterns are token sequences with a hand-written matcher, and
  `extractFieldFromQuery`'s three patterns are hand-written scanners.
- **Parsing and printing outside the core.** URL decoding of the `query=` value, JSON parsing
  of request bodies, and JSON pretty-printing of payloads are not modelled.
  `RequestEditor.QueryParameter` returns the raw text before decoding.
- **Case mapping** covers ASCII letters only. `toLowerCase`/`toUpperCase` of other letters is
  not modelled.
- **Decimal numbers.** Numbers in payloads use plain ASCII digits. The locale digits that
  `String.format("%d")` can produce are not modelled.
- **Null references.** A null type reference on a field or argument that the UI generators
  dereference without a check becomes a precondition (`f.typ.Some?`). A null `typeName` in
  `matchesFilter` and `appendSelection` therefore falls under that precondition.
- **UI wiring.** Swing and Burp wiring, layout and painting, `getDisplayName`, preference
  loading (`loadConfigFromPrefs`), and the request editor's other payload generators
  (batching, field duplication, directives, fragments, persisted queries) are not part of
  this model.
- **Field and directive rendering.** `toGraphQLString` of fields and directives joins its
  parts in a loop. The model states that loop as a `Join` function rather than a `while`
  method.
- **Suggestion lists.** The classifier and the reconstructor read "did you mean" lists with
  the DID_YOU_MEAN pattern as written (`RegexStore.SuggestionsOf`), so a three-entry list
  gives its first entry and the word `or` (see Findings). The corrected reading,
  `RegexStore.IntendedSuggestionsOf`, is proved on its own and is not used by the rest of
  the model.
- **Repeated JSON keys.** `Json.Get` reads the first member with a key. Gson objects hold
  each key once, so this is the only member on the objects Gson builds; a member list
  with a repeated key, where Gson would keep the last value, is not modelled.
- **Schema entities as values.** `GripType`, `GripField`, `GripArgument`, `GripDirective` and
  `GripEnumValue` are values, and their setters return updated copies. Updates shared through
  aliasing are not captured. `probeFieldTypes` changes the Query type's fields through the
  object the map holds; the model stores the updated Query type back into the map, which has
  the same effect.
- **Interfaces and possible types** of `GripType` are held by name. Only their names are ever
  read.
- **Timestamps.** `createdAt` is a clock reading and is not modelled.
- **Behaviour that follows the code:**
  - `extractFullFieldCall` on `"{ }"` yields the empty string, not null, because only
    braces with nothing at all between them give null.
  - `extractFieldFromQuery` on null or empty input keeps the previous operation type.

## Findings

| source | as written | input that shows it | evidently intended | confidence | as-written member | corrected member |
|---|---|---|---|---|---|---|
| src/main/java/com/grip/graphql/schema/regex/GripRegexStore.java:33-35 | the repeated group `(?:,\s*["']?(\w+)["']?)*` also matches `, or`, taking the unquoted word `or` as a suggestion, and a repeated group keeps only its last capture, so middle entries are lost | `Did you mean "a", "b", or "c"?` gives `[a, or]` | every listed suggestion, in order: `[a, b, c]` | not executed | RegexStore.ThreeListedAsWritten | RegexStore.ListedSuggestionsRead |
