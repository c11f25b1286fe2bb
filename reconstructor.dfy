/** Blind schema reconstruction (SchemaReconstructor): probing a server
    with aliased candidate field names taken from a wordlist, reading the
    answers and the error messages, classifying the Query fields' return
    types, exploring the types found, and assembling a schema. The HTTP
    client is a function from endpoint and query text to a response object
    or an exception; the run is sequential. */
module Reconstruction {
  import opened Wrappers
  import opened Text
  import opened Json
  import opened TypeKinds
  import opened TypeRefs
  import RegexStore
  import Fields
  import GripTypes
  import Schemas

  /** `BUCKET_SIZE`: candidates per root probe; nested probes use half. */
  const BucketSize: nat := 64
  const NestedBucketSize: nat := BucketSize / 2
  /** `MAX_DEPTH`: tasks deeper than this are dropped. */
  const MaxDepth: nat := 10

  /** `GripHttpClient.sendQuery(endpoint, query)`: the parsed response
      object, or an exception. */
  type Client = (string, string) -> Outcome<Members>

  /** `TypeExplorationTask`. */
  datatype Task = Task(typeName: string, parentPath: string, depth: nat)

  // ---------------------------------------------------------------------
  // `createBuckets`.

  /** Consecutive slices of `size` items, the last one possibly shorter. */
  function Buckets<T>(list: seq<T>, size: nat): seq<seq<T>>
    requires size > 0
    decreases |list|
  {
    if list == [] then []
    else if |list| <= size then [list]
    else [list[..size]] + Buckets(list[size..], size)
  }

  /** The buckets give back the list in order; none is empty, none holds
      more than `size` items, and all but the last hold exactly `size`. */
  lemma {:induction false} BucketsShape<T>(list: seq<T>, size: nat)
    requires size > 0
    ensures Concat(Buckets(list, size)) == list
    ensures forall k | 0 <= k < |Buckets(list, size)| :: 0 < |Buckets(list, size)[k]| <= size
    ensures forall k | 0 <= k < |Buckets(list, size)| - 1 :: |Buckets(list, size)[k]| == size
    decreases |list|
  {
    if |list| > size {
      var rest := Buckets(list[size..], size);
      BucketsShape(list[size..], size);
      var bs := Buckets(list, size);
      assert bs == [list[..size]] + rest;
      assert bs[1..] == rest;
      assert list[..size] + list[size..] == list;
      forall k | 1 <= k < |bs| ensures bs[k] == rest[k - 1] { }
    }
  }

  /** One step of the index loop, read on the remaining suffix. */
  lemma BucketsFrom<T>(list: seq<T>, size: nat, i: nat)
    requires size > 0 && i < |list|
    ensures Buckets(list[i..], size) ==
      if |list| - i <= size then [list[i..]]
      else [list[i..i + size]] + Buckets(list[i + size..], size)
  {
    if |list| - i > size {
      assert list[i..][..size] == list[i..i + size];
      assert list[i..][size..] == list[i + size..];
    }
  }

  /** `createBuckets`: `subList(i, min(i + size, n))` for i = 0, size, 2·size, … */
  method CreateBuckets<T>(list: seq<T>, size: nat) returns (buckets: seq<seq<T>>)
    requires size > 0
    ensures buckets == Buckets(list, size)
  {
    buckets := [];
    var i := 0;
    while i < |list|
      invariant i <= |list| ==> buckets + Buckets(list[i..], size) == Buckets(list, size)
      invariant i > |list| ==> buckets == Buckets(list, size)
      decreases |list| - i
    {
      BucketsFrom(list, size, i);
      var end := if i + size < |list| then i + size else |list|;
      buckets := buckets + [list[i..end]];
      if i + size >= |list| {
        assert list[i..end] == list[i..];
      }
      i := i + size;
    }
    if i == |list| {
      assert buckets + Buckets(list[i..], size) == buckets;
    }
  }

  // ---------------------------------------------------------------------
  // Probe queries.

  /** The response key of the i-th candidate. */
  function Alias(i: nat): string {
    "g" + NatToString(i)
  }

  /** Different candidates get different keys, so a key names one candidate. */
  lemma AliasesDiffer(i: nat, j: nat)
    requires i != j
    ensures Alias(i) != Alias(j)
  {
    if Alias(i) == Alias(j) {
      assert Alias(i)[1..] == NatToString(i);
      assert Alias(j)[1..] == NatToString(j);
      NatToStringInjective(i, j);
    }
  }

  /** ` g0: a g1: b …` for the first `n` candidates. */
  function Aliased(names: seq<string>, n: nat): string
    requires n <= |names|
  {
    if n == 0 then "" else Aliased(names, n - 1) + " " + Alias(n - 1) + ": " + names[n - 1]
  }

  /** The aliasing loop of both probes. */
  method AppendAliases(prefix: string, names: seq<string>) returns (q: string)
    ensures q == prefix + Aliased(names, |names|)
  {
    q := prefix;
    for i := 0 to |names|
      invariant q == prefix + Aliased(names, i)
    {
      q := q + " " + Alias(i) + ": " + names[i];
    }
  }

  function RootProbeQuery(names: seq<string>, isMutation: bool): string {
    (if isMutation then "mutation GripProbe {" else "query GripProbe {") + Aliased(names, |names|) + " }"
  }

  function NestedProbeQuery(path: string, names: seq<string>): string {
    "query GripNestedProbe { " + path + " {" + Aliased(names, |names|) + " } }"
  }

  function TypenameProbeQuery(fieldName: string): string {
    "query { " + fieldName + " { __typename } }"
  }

  // ---------------------------------------------------------------------
  // Reading responses.

  /** `has("data") && !get("data").isJsonNull() ? getAsJsonObject("data")`:
      nothing when absent or null, an exception when not an object. */
  function DataObject(o: Members): (r: Outcome<Option<Members>>)
    ensures r == Ok(None) <==> !HasNonNull(o, "data")
    ensures r.Ok? && r.value.Some? ==> Get(o, "data") == Some(JObj(r.value.value))
  {
    if !HasNonNull(o, "data") then Ok(None)
    else match Get(o, "data").value
      case JObj(m) => Ok(Some(m))
      case _ => Thrown
  }

  /** `getErrorMessage`: `has("message") ? get("message").getAsString() : null`. */
  function ErrorMessage(e: Members): Outcome<Option<string>> {
    StringIfPresent(e, "message")
  }

  /** `extractSuggestions` as a function of the message. */
  function Suggestions(msg: Option<string>): seq<string> {
    if msg.None? then [] else RegexStore.SuggestionsOf(msg.value)
  }

  /** What one error message yields: the field it names when it signals a
      valid field, and every suggestion it makes, unconditionally. */
  function MessageFinds(msg: Option<string>): (r: set<string>)
    ensures forall w :: w in r <==>
      (RegexStore.IndicatesValidField(msg) && RegexStore.ExtractFieldInfo(msg).Some? &&
       RegexStore.ExtractFieldInfo(msg).value.field == Some(w)) || w in Suggestions(msg)
  {
    var info := RegexStore.ExtractFieldInfo(msg);
    (if RegexStore.IndicatesValidField(msg) && info.Some? && info.value.field.Some? then {info.value.field.value} else {})
      + (set w | w in Suggestions(msg))
  }

  /** The errors loop: the messages of the object entries, in order. A
      message that is not a string throws out of the loop: what was found
      before it is kept, and the second component says whether the loop ran
      to its end. */
  function ErrorsFinds(errors: seq<Json>): (r: (set<string>, bool))
    decreases |errors|
  {
    if errors == [] then ({}, true)
    else if !errors[0].JObj? then ErrorsFinds(errors[1..])
    else match ErrorMessage(errors[0].members)
      case Thrown => ({}, false)
      case Ok(msg) =>
        var rest := ErrorsFinds(errors[1..]);
        (MessageFinds(msg) + rest.0, rest.1)
  }

  /** Every name the errors loop finds comes from the message of an object
      entry before the first unreadable one. */
  lemma {:induction false} ErrorsFindsFromMessages(errors: seq<Json>, w: string)
    requires w in ErrorsFinds(errors).0
    ensures exists k | 0 <= k < |errors| ::
      (errors[k].JObj? && ErrorMessage(errors[k].members).Ok? &&
       w in MessageFinds(ErrorMessage(errors[k].members).value))
    decreases |errors|
  {
    if !errors[0].JObj? || w !in MessageFinds(ErrorMessage(errors[0].members).value) {
      ErrorsFindsFromMessages(errors[1..], w);
      var k :| 0 <= k < |errors[1..]| && errors[1..][k].JObj? && ErrorMessage(errors[1..][k].members).Ok? &&
        w in MessageFinds(ErrorMessage(errors[1..][k].members).value);
      assert errors[k + 1] == errors[1..][k];
    }
  }

  /** The errors loop of both probes. */
  method ReadErrors(errors: seq<Json>) returns (found: set<string>, completed: bool)
    ensures (found, completed) == ErrorsFinds(errors)
  {
    found := {};
    assert errors[0..] == errors;
    for i := 0 to |errors|
      invariant ErrorsFinds(errors).0 == found + ErrorsFinds(errors[i..]).0
      invariant ErrorsFinds(errors).1 == ErrorsFinds(errors[i..]).1
    {
      ErrorsFindsStep(errors, i);
      var e := errors[i];
      if e.JObj? {
        var msg := ErrorMessage(e.members);
        if msg.Thrown? {
          return found, false;
        }
        var more := ReadMessage(msg.value);
        found := found + more;
      }
    }
    assert errors[|errors|..] == [];
    completed := true;
  }

  /** One pass of the errors loop on a readable message: the field it
      names when it is a valid-field error, and its suggestions. */
  method ReadMessage(msg: Option<string>) returns (more: set<string>)
    ensures more == MessageFinds(msg)
  {
    var info := RegexStore.ExtractFieldInfo(msg);
    more := {};
    if RegexStore.IndicatesValidField(msg) && info.Some? && info.value.field.Some? {
      more := {info.value.field.value};
    }
    var suggestions := RegexStore.ExtractSuggestions(msg);
    more := more + set w | w in suggestions;
  }

  lemma ErrorsFindsStep(errors: seq<Json>, i: nat)
    requires i < |errors|
    ensures var rest := ErrorsFinds(errors[i + 1..]);
      ErrorsFinds(errors[i..]) ==
        if !errors[i].JObj? then rest
        else match ErrorMessage(errors[i].members)
          case Thrown => ({}, false)
          case Ok(msg) => (MessageFinds(msg) + rest.0, rest.1)
  {
    assert errors[i..][1..] == errors[i + 1..];
  }

  // ---------------------------------------------------------------------
  // `probeBucket`.

  /** The candidates whose alias is a key of `data`, whatever its value. */
  function DataHits(data: Members, names: seq<string>, n: nat): (r: set<string>)
    requires n <= |names|
    ensures forall w :: w in r <==> exists i | 0 <= i < n :: Has(data, Alias(i)) && names[i] == w
  {
    set i | 0 <= i < n && Has(data, Alias(i)) :: names[i]
  }

  /** What `probeBucket` returns for a response: the data hits and what the
      errors each; nothing when the request failed or `data` is not an object. */
  function BucketFinds(response: Outcome<Members>, names: seq<string>): set<string> {
    match response
    case Thrown => {}
    case Ok(o) =>
      match DataObject(o)
      case Thrown => {}
      case Ok(data) =>
        (if data.Some? then DataHits(data.value, names, |names|) else {}) + ErrorsFinds(ArrayMember(o, "errors")).0
  }

  /** The data loop of `probeBucket`. */
  method ReadDataHits(data: Members, names: seq<string>) returns (hits: set<string>)
    ensures hits == DataHits(data, names, |names|)
  {
    hits := {};
    for i := 0 to |names|
      invariant hits == DataHits(data, names, i)
    {
      if Has(data, Alias(i)) {
        hits := hits + {names[i]};
      }
    }
  }

  /** `probeBucket`: one aliased query for the bucket, then its answer read. */
  method ProbeBucket(client: Client, endpoint: string, names: seq<string>, isMutation: bool) returns (discovered: set<string>)
    ensures discovered == BucketFinds(client(endpoint, RootProbeQuery(names, isMutation)), names)
  {
    discovered := {};
    var query := AppendAliases(if isMutation then "mutation GripProbe {" else "query GripProbe {", names);
    query := query + " }";
    var response := client(endpoint, query);
    if response.Thrown? {
      return;
    }
    var o := response.value;
    var data := DataObject(o);
    if data.Thrown? {
      return;
    }
    if data.value.Some? {
      discovered := ReadDataHits(data.value.value, names);
    }
    var found, _ := ReadErrors(ArrayMember(o, "errors"));
    discovered := discovered + found;
  }

  /** A candidate is found when its alias is present in the answer's data,
      even with a null value: bucket [a, b, c] answered with
      {g0: null, g2: {x: 1}} yields {a, c}. */
  lemma AliasPresenceFinds()
    ensures BucketFinds(Ok([("data", JObj([("g0", JNull), ("g2", JObj([("x", JNum("1"))]))]))]), ["a", "b", "c"]) == {"a", "c"}
  {
    var data := [("g0", JNull), ("g2", JObj([("x", JNum("1"))]))];
    var o := [("data", JObj(data))];
    assert Get(o, "data") == Some(JObj(data));
    assert !Has(o, "errors");
    SampleHits(data);
  }

  lemma SampleHits(data: Members)
    requires data == [("g0", JNull), ("g2", JObj([("x", JNum("1"))]))]
    ensures DataHits(data, ["a", "b", "c"], 3) == {"a", "c"}
  {
    var names := ["a", "b", "c"];
    assert Alias(0) == "g0" && Alias(1) == "g1" && Alias(2) == "g2";
    assert Has(data, Alias(0)) by { assert data[0].0 == "g0"; }
    assert Has(data, Alias(2)) by { assert data[1].0 == "g2"; }
    assert !Has(data, Alias(1)) by {
      assert "g0"[1] != "g1"[1] && "g2"[1] != "g1"[1];
      assert Get(data, "g1") == None;
    }
    assert forall i | 0 <= i < 3 && names[i] == "b" :: i == 1;
  }

  /** What each bucket yields, merged over the buckets in order. */
  function Union(each: seq<string> -> set<string>, buckets: seq<seq<string>>): set<string>
    decreases |buckets|
  {
    if buckets == [] then {}
    else Union(each, buckets[..|buckets| - 1]) + each(buckets[|buckets| - 1])
  }

  /** A name is in the merged finds exactly when some bucket yields it. */
  lemma {:induction false} UnionMembers(each: seq<string> -> set<string>, buckets: seq<seq<string>>, w: string)
    ensures w in Union(each, buckets) <==> exists k | 0 <= k < |buckets| :: w in each(buckets[k])
    decreases |buckets|
  {
    if buckets != [] {
      var front := buckets[..|buckets| - 1];
      UnionMembers(each, front, w);
      if exists k | 0 <= k < |buckets| :: w in each(buckets[k]) {
        var k :| 0 <= k < |buckets| && w in each(buckets[k]);
        if k < |front| { assert front[k] == buckets[k]; }
      }
      if exists k | 0 <= k < |front| :: w in each(front[k]) {
        var k :| 0 <= k < |front| && w in each(front[k]);
        assert buckets[k] == front[k];
      }
    }
  }

  /** What one root bucket yields, the query sent for it answered by the client. */
  function RootBucketProbe(client: Client, endpoint: string, isMutation: bool): seq<string> -> set<string> {
    names => BucketFinds(client(endpoint, RootProbeQuery(names, isMutation)), names)
  }

  /** What the root probe finds over the wordlist, by whether the root is Mutation. */
  function RootProbe(client: Client, endpoint: string, wordlist: seq<string>): bool -> set<string> {
    isMutation => Union(RootBucketProbe(client, endpoint, isMutation), Buckets(wordlist, BucketSize))
  }

  // ---------------------------------------------------------------------
  // `extractFieldsFromData` and the nested probe.

  /** Following the path's segments through nested objects. */
  function Walk(current: Members, parts: seq<string>): Option<Members>
    decreases |parts|
  {
    if parts == [] then Some(current)
    else match Get(current, parts[0])
      case Some(JObj(m)) => Walk(m, parts[1..])
      case _ => None
  }

  /** Every key of the object the path leads to, alias keys like `g0`
      included as they are; nothing when a segment is missing or not an object. */
  function FieldsFromData(data: Members, path: string): (r: set<string>)
  {
    match Walk(data, SplitOnSpaces(path))
    case None => {}
    case Some(m) => KeySet(m)
  }

  /** `extractFieldsFromData`. */
  method ExtractFieldsFromData(data: Members, path: string) returns (fields: set<string>)
    ensures fields == FieldsFromData(data, path)
  {
    fields := {};
    var parts := SplitOnSpaces(path);
    var current := data;
    for k := 0 to |parts|
      invariant Walk(data, parts) == Walk(current, parts[k..])
    {
      assert parts[k..][1..] == parts[k + 1..];
      match Get(current, parts[k]) {
        case Some(JObj(m)) =>
          current := m;
        case _ =>
          return;
      }
    }
    assert parts[|parts|..] == [];
    for k := 0 to |current|
      invariant fields == set j | 0 <= j < k :: current[j].0
    {
      fields := fields + {current[k].0};
    }
  }

  /** The nested probe keeps the response's raw keys: under path `user`,
      data {user: {g0: null, g1: "a"}} yields {g0, g1}, not the candidates
      the aliases stood for. */
  lemma NestedKeysStayRaw()
    ensures FieldsFromData([("user", JObj([("g0", JNull), ("g1", JStr("a"))]))], "user") == {"g0", "g1"}
  {
    SplitOnSpacesOfWord("user");
    var m := [("g0", JNull), ("g1", JStr("a"))];
    assert Get([("user", JObj(m))], "user") == Some(JObj(m));
    assert KeySet(m) == {"g0", "g1"} by {
      assert m[0].0 == "g0" && m[1].0 == "g1";
    }
  }

  /** What one nested bucket adds: the keys under the path in `data`, then
      what the errors each. A `data` that is not an object, or `errors`
      that are not an array, throw and end the bucket with what it had. */
  function NestedBucketFinds(response: Outcome<Members>, path: string): set<string> {
    match response
    case Thrown => {}
    case Ok(o) =>
      match DataObject(o)
      case Thrown => {}
      case Ok(data) =>
        (if data.Some? then FieldsFromData(data.value, path) else {}) +
        (match Get(o, "errors")
         case Some(JArr(errors)) => ErrorsFinds(errors).0
         case _ => {})
  }

  /** What one nested bucket yields under `path`. */
  function NestedBucketProbe(client: Client, endpoint: string, path: string): seq<string> -> set<string> {
    names => NestedBucketFinds(client(endpoint, NestedProbeQuery(path, names)), path)
  }

  /** One bucket of `probeTypeFields`. */
  method NestedBucket(client: Client, endpoint: string, path: string, names: seq<string>) returns (found: set<string>)
    ensures found == NestedBucketFinds(client(endpoint, NestedProbeQuery(path, names)), path)
  {
    found := {};
    var query := AppendAliases("query GripNestedProbe { " + path + " {", names);
    query := query + " } }";
    var response := client(endpoint, query);
    if response.Thrown? {
      return;
    }
    var o := response.value;
    var data := DataObject(o);
    if data.Thrown? {
      return;
    }
    if data.value.Some? {
      found := ExtractFieldsFromData(data.value.value, path);
    }
    match Get(o, "errors") {
      case Some(JArr(errors)) =>
        var more, _ := ReadErrors(errors);
        found := found + more;
      case _ =>
    }
  }

  // ---------------------------------------------------------------------
  // `probeFieldTypes`: one typed probe per Query field.

  /** `getFirstErrorMessage`. */
  function FirstErrorMessage(o: Members): Outcome<Option<string>> {
    var errors := ArrayMember(o, "errors");
    if |errors| > 0 && errors[0].JObj? then ErrorMessage(errors[0].members) else Ok(None)
  }

  /** The `__typename` the data answer gives for field `name`: none when the
      data, the field's member or its `__typename` is missing or null, or
      when the member is not an object. */
  function DataTypename(o: Members, name: string): Outcome<Option<string>> {
    var data :- DataObject(o);
    if data.Some? && HasNonNull(data.value, name) && Get(data.value, name).value.JObj? then
      var fieldObj := Get(data.value, name).value.members;
      if HasNonNull(fieldObj, "__typename") then
        var t :- GetAsString(Get(fieldObj, "__typename").value);
        Ok(Some(t))
      else Ok(None)
    else Ok(None)
  }

  /** The probe's verdict on one field: the type it now has (none when it is
      left alone) and the exploration task it queues (none when nothing is
      queued); an exception leaves the field alone. A resolved `__typename`
      wins, then an object signal, then a scalar signal. */
  function ClassifyField(response: Outcome<Members>, name: string, explored: set<string>): (r: Outcome<(Option<TypeRef>, Option<Task>)>)
    ensures r.Ok? && r.value.1.Some? ==>
      r.value.1.value == Task(r.value.1.value.typeName, name, 1) &&
      r.value.1.value.typeName !in explored &&
      r.value.0 == Some(Simple(r.value.1.value.typeName))
    ensures response.Thrown? ==> r.Thrown?
    ensures r.Ok? && r.value.0.None? ==> r.value.1.None?
  {
    var o :- response;
    var msg :- FirstErrorMessage(o);
    if msg.None? && HasNonNull(o, "data") then
      var typename :- DataTypename(o, name);
      Ok(if typename.Some? then Found(typename.value, name, explored) else (None, None))
    else Ok(SignalVerdict(msg, name, explored))
  }

  /** The verdict once the field's type name `t` is known: the field gets
      that type, and the type is queued unless it was explored already. */
  function Found(t: string, name: string, explored: set<string>): (Option<TypeRef>, Option<Task>) {
    (Some(Simple(t)), if t in explored then None else Some(Task(t, name, 1)))
  }

  /** The verdict read from the first error message: an object signal, then a
      scalar signal; nothing when neither matches or no type name is read. */
  function SignalVerdict(msg: Option<string>, name: string, explored: set<string>): (Option<TypeRef>, Option<Task>) {
    if RegexStore.IndicatesObjectType(msg) then
      var info := RegexStore.ExtractFieldInfo(msg);
      if info.Some? && info.value.typ.Some? then
        Found(RegexStore.NormalizeTypeName(info.value.typ).value, name, explored)
      else (None, None)
    else if RegexStore.IndicatesScalarType(msg) then
      var info := RegexStore.ExtractFieldInfo(msg);
      if info.Some? && info.value.typ.Some? then
        var t := RegexStore.NormalizeTypeName(info.value.typ).value;
        (Some(TypeRef(t, SCALAR, false, false, false)), None)
      else (None, None)
    else (None, None)
  }

  /** A data answer naming the field's type sets that type and queues the
      type once, at depth 1, under the field's name. */
  lemma TypenameAnswer(name: string, t: string, explored: set<string>)
    ensures ClassifyField(Ok([("data", JObj([(name, JObj([("__typename", JStr(t))]))]))]), name, explored) ==
      Ok((Some(Simple(t)), if t in explored then None else Some(Task(t, name, 1))))
  {
    var fieldObj := [("__typename", JStr(t))];
    var data := [(name, JObj(fieldObj))];
    var o := [("data", JObj(data))];
    assert Get(o, "data") == Some(JObj(data));
    assert !Has(o, "errors");
    assert Get(data, name) == Some(JObj(fieldObj));
    assert Get(fieldObj, "__typename") == Some(JStr(t));
  }

  /** Whatever else the answer holds: with no error message, a data member
      for the field that is an object with a `__typename` string sets that
      type and queues it, once, at depth 1, when it is not explored yet. */
  lemma TypenameAnswerAny(o: Members, name: string, explored: set<string>, data: Members, fieldObj: Members, t: string)
    requires FirstErrorMessage(o) == Ok(None)
    requires Get(o, "data") == Some(JObj(data))
    requires Get(data, name) == Some(JObj(fieldObj))
    requires Get(fieldObj, "__typename") == Some(JStr(t))
    ensures ClassifyField(Ok(o), name, explored) ==
      Ok((Some(Simple(t)), if t in explored then None else Some(Task(t, name, 1))))
  {
    assert HasNonNull(o, "data") && DataObject(o) == Ok(Some(data));
    assert DataTypename(o, name) == Ok(Some(t));
  }

  /** An answer whose first error signals an object type, and from which the
      field rules read a type name, sets the field to that name with its
      wrapper characters removed and queues it when it is not explored yet. */
  lemma ObjectSignalAnswer(o: Members, name: string, explored: set<string>, m: string)
    requires FirstErrorMessage(o) == Ok(Some(m))
    requires RegexStore.IndicatesObjectType(Some(m))
    requires RegexStore.ExtractFieldInfo(Some(m)).Some? && RegexStore.ExtractFieldInfo(Some(m)).value.typ.Some?
    ensures var t := RegexStore.StripWrapperChars(RegexStore.ExtractFieldInfo(Some(m)).value.typ.value);
      ClassifyField(Ok(o), name, explored) ==
        Ok((Some(Simple(t)), if t in explored then None else Some(Task(t, name, 1))))
  {
    var typ := RegexStore.ExtractFieldInfo(Some(m)).value.typ;
    assert RegexStore.NormalizeTypeName(typ) == Some(RegexStore.StripWrapperChars(typ.value));
  }

  /** An answer whose first error says the field must not have a selection
      types the field as a SCALAR of the named type and queues nothing. */
  lemma ScalarAnswerQueuesNothing(o: Members, name: string, explored: set<string>, m: string)
    requires FirstErrorMessage(o) == Ok(Some(m))
    requires !RegexStore.IndicatesObjectType(Some(m)) && RegexStore.IndicatesScalarType(Some(m))
    ensures ClassifyField(Ok(o), name, explored).Ok?
    ensures ClassifyField(Ok(o), name, explored).value.1 == None
    ensures var info := RegexStore.ExtractFieldInfo(Some(m));
      info.Some? && info.value.typ.Some? ==>
        ClassifyField(Ok(o), name, explored).value.0 ==
          Some(TypeRef(RegexStore.NormalizeTypeName(info.value.typ).value, SCALAR, false, false, false))
  {
  }

  function Classify(client: Client, endpoint: string, f: Fields.Field, explored: set<string>): Outcome<(Option<TypeRef>, Option<Task>)> {
    ClassifyField(client(endpoint, TypenameProbeQuery(f.name)), f.name, explored)
  }

  function Retyped(f: Fields.Field, c: Outcome<(Option<TypeRef>, Option<Task>)>): (r: Fields.Field)
    ensures r.name == f.name && r.arguments == f.arguments
  {
    if c.Ok? && c.value.0.Some? then Fields.SetType(f, c.value.0) else f
  }

  /** The Query fields after the probes: same names in the same order, each
      with the type its probe gave, if any. */
  function RetypedFields(client: Client, endpoint: string, fs: seq<Fields.Field>, explored: set<string>): (r: seq<Fields.Field>)
    ensures |r| == |fs| && forall k | 0 <= k < |fs| :: r[k].name == fs[k].name
  {
    seq(|fs|, k requires 0 <= k < |fs| => Retyped(fs[k], Classify(client, endpoint, fs[k], explored)))
  }

  function TaskOf(c: Outcome<(Option<TypeRef>, Option<Task>)>): seq<Task> {
    if c.Ok? && c.value.1.Some? then [c.value.1.value] else []
  }

  /** The tasks the probes queue, in field order. */
  function NewTasks(client: Client, endpoint: string, fs: seq<Fields.Field>, explored: set<string>): seq<Task>
    decreases |fs|
  {
    if fs == [] then []
    else NewTasks(client, endpoint, fs[..|fs| - 1], explored) + TaskOf(Classify(client, endpoint, fs[|fs| - 1], explored))
  }

  /** Every queued task is at depth 1, for a type not yet explored, under
      the name of one of the probed fields. */
  lemma {:induction false} NewTasksShape(client: Client, endpoint: string, fs: seq<Fields.Field>, explored: set<string>)
    ensures forall k | 0 <= k < |NewTasks(client, endpoint, fs, explored)| ::
      var t := NewTasks(client, endpoint, fs, explored)[k];
      t.depth == 1 && t.typeName !in explored && exists j | 0 <= j < |fs| :: fs[j].name == t.parentPath
    ensures |NewTasks(client, endpoint, fs, explored)| <= |fs|
    decreases |fs|
  {
    if fs != [] {
      var front := fs[..|fs| - 1];
      NewTasksShape(client, endpoint, front, explored);
      var ts := NewTasks(client, endpoint, fs, explored);
      var pre := NewTasks(client, endpoint, front, explored);
      forall k | 0 <= k < |ts|
        ensures ts[k].depth == 1 && ts[k].typeName !in explored && exists j | 0 <= j < |fs| :: fs[j].name == ts[k].parentPath
      {
        if k < |pre| {
          var j :| 0 <= j < |front| && front[j].name == pre[k].parentPath;
          assert fs[j] == front[j];
        } else {
          assert fs[|fs| - 1].name == ts[k].parentPath;
        }
      }
    }
  }

  /** The field loop of `probeFieldTypes`: one `__typename` probe per
      field, in order. */
  method ProbeEachField(client: Client, endpoint: string, fs: seq<Fields.Field>, explored: set<string>)
    returns (fields: seq<Fields.Field>, tasks: seq<Task>)
    ensures fields == RetypedFields(client, endpoint, fs, explored)
    ensures tasks == NewTasks(client, endpoint, fs, explored)
  {
    fields := fs;
    tasks := [];
    for i := 0 to |fs|
      invariant |fields| == |fs|
      invariant forall k | 0 <= k < i :: fields[k] == Retyped(fs[k], Classify(client, endpoint, fs[k], explored))
      invariant forall k | i <= k < |fs| :: fields[k] == fs[k]
      invariant tasks == NewTasks(client, endpoint, fs[..i], explored)
    {
      assert fs[..i + 1][..i] == fs[..i];
      var c := Classify(client, endpoint, fs[i], explored);
      fields := fields[i := Retyped(fields[i], c)];
      tasks := tasks + TaskOf(c);
    }
    assert fs[..|fs|] == fs;
  }

  // ---------------------------------------------------------------------
  // `exploreDiscoveredTypes`.

  function Names(ts: seq<Task>): set<string> {
    set k | 0 <= k < |ts| :: ts[k].typeName
  }

  lemma NamesSnoc(ts: seq<Task>, t: Task)
    ensures Names(ts + [t]) == Names(ts) + {t.typeName}
  {
    assert (ts + [t])[|ts|] == t;
    forall n | n in Names(ts) ensures n in Names(ts + [t]) {
      var k :| 0 <= k < |ts| && ts[k].typeName == n;
      assert (ts + [t])[k] == ts[k];
    }
  }

  /** The tasks the exploration loop actually probes, in queue order: those
      within the depth bound whose type has not been explored yet. Each name
      is probed at most once, and nothing is probed that was not queued. */
  function Probed(queue: seq<Task>, explored: set<string>): seq<Task>
    decreases |queue|
  {
    if queue == [] then []
    else
      var t := queue[0];
      if t.depth > MaxDepth || t.typeName in explored then Probed(queue[1..], explored)
      else [t] + Probed(queue[1..], explored + {t.typeName})
  }

  /** The probed tasks are queued tasks within the depth bound, for types
      not explored before, each type at most once; so the loop makes at
      most one probe per queued task. */
  lemma {:induction false} ProbedShape(queue: seq<Task>, explored: set<string>)
    ensures |Probed(queue, explored)| <= |queue|
    ensures forall k | 0 <= k < |Probed(queue, explored)| ::
      var t := Probed(queue, explored)[k];
      t.depth <= MaxDepth && t.typeName !in explored && t in queue
    ensures forall j, k | 0 <= j < k < |Probed(queue, explored)| ::
      Probed(queue, explored)[j].typeName != Probed(queue, explored)[k].typeName
    decreases |queue|
  {
    if queue != [] {
      var t := queue[0];
      if t.depth > MaxDepth || t.typeName in explored {
        ProbedShape(queue[1..], explored);
        forall k | 0 <= k < |Probed(queue, explored)| ensures Probed(queue, explored)[k] in queue {
          assert Probed(queue, explored)[k] in queue[1..];
        }
      } else {
        var rest := Probed(queue[1..], explored + {t.typeName});
        ProbedShape(queue[1..], explored + {t.typeName});
        var r := Probed(queue, explored);
        assert r == [t] + rest;
        forall k | 1 <= k < |r| ensures r[k] == rest[k - 1] && r[k] in queue {
          assert rest[k - 1] in queue[1..];
        }
        forall j, k | 0 <= j < k < |r| ensures r[j].typeName != r[k].typeName {
          if j == 0 {
            assert r[k].typeName !in explored + {t.typeName};
          } else {
            assert r[j] == rest[j - 1] && r[k] == rest[k - 1];
          }
        }
      }
    }
  }

  /** The names of a list of fields. */
  function FieldNameSet(fs: seq<Fields.Field>): set<string> {
    set k | 0 <= k < |fs| :: fs[k].name
  }

  lemma FieldNameSetSnoc(fs: seq<Fields.Field>, f: Fields.Field)
    ensures FieldNameSet(fs + [f]) == FieldNameSet(fs) + {f.name}
  {
    assert (fs + [f])[|fs|] == f;
    forall n | n in FieldNameSet(fs) ensures n in FieldNameSet(fs + [f]) {
      var k :| 0 <= k < |fs| && fs[k].name == n;
      assert (fs + [f])[k] == fs[k];
    }
  }

  /** Fields as the probes record them: one `Unknown`-typed field per
      name found, each name once, in any order. */
  ghost predicate UnknownFieldsOf(fs: seq<Fields.Field>, names: set<string>) {
    (forall k | 0 <= k < |fs| :: fs[k] == Fields.NewField(fs[k].name, Some(Simple("Unknown")))) &&
    FieldNameSet(fs) == names &&
    (forall j, k | 0 <= j < k < |fs| :: fs[j].name != fs[k].name)
  }

  /** A built type: the given name, OBJECT, and the fields found. */
  ghost predicate ObjectTypeOf(t: GripTypes.GripType, name: string, names: set<string>) {
    t == GripTypes.NewType(name, OBJECT).(fields := t.fields) && UnknownFieldsOf(t.fields, names)
  }

  lemma UnknownFieldsSnoc(fs: seq<Fields.Field>, names: set<string>, w: string)
    requires UnknownFieldsOf(fs, names) && w !in names
    ensures UnknownFieldsOf(fs + [Fields.NewField(w, Some(Simple("Unknown")))], names + {w})
  {
    var f := Fields.NewField(w, Some(Simple("Unknown")));
    var fs' := fs + [f];
    FieldNameSetSnoc(fs, f);
    forall j, k | 0 <= j < k < |fs'| ensures fs'[j].name != fs'[k].name {
      if k == |fs| {
        assert fs'[j].name in FieldNameSet(fs);
      } else {
        assert fs'[j] == fs[j] && fs'[k] == fs[k];
      }
    }
    forall k | 0 <= k < |fs'| ensures fs'[k] == Fields.NewField(fs'[k].name, Some(Simple("Unknown"))) {
      if k < |fs| { assert fs'[k] == fs[k]; }
    }
  }

  /** The `for (String fieldName : fields)` loop over a hash set: the
      iteration order is unspecified, so any order is allowed. */
  method NewObjectType(name: string, names: set<string>) returns (t: GripTypes.GripType)
    ensures ObjectTypeOf(t, name, names)
  {
    t := GripTypes.NewType(name, OBJECT);
    var rest := names;
    while rest != {}
      invariant rest <= names
      invariant t == GripTypes.NewType(name, OBJECT).(fields := t.fields)
      invariant UnknownFieldsOf(t.fields, names - rest)
      decreases |rest|
    {
      var w :| w in rest;
      UnknownFieldStep(t, name, names - rest, w);
      t := GripTypes.AddField(t, Fields.NewField(w, Some(Simple("Unknown"))));
      assert names - (rest - {w}) == (names - rest) + {w};
      rest := rest - {w};
    }
  }

  /** One round of the loop above: the type stays a bare OBJECT type of
      that name, and its fields now cover `w` as well. */
  lemma UnknownFieldStep(t: GripTypes.GripType, name: string, done: set<string>, w: string)
    requires t == GripTypes.NewType(name, OBJECT).(fields := t.fields) && UnknownFieldsOf(t.fields, done)
    requires w !in done
    ensures var t' := GripTypes.AddField(t, Fields.NewField(w, Some(Simple("Unknown"))));
      t' == GripTypes.NewType(name, OBJECT).(fields := t'.fields) && UnknownFieldsOf(t'.fields, done + {w})
  {
    UnknownFieldsSnoc(t.fields, done, w);
  }

  /** Each type stored under its own name. */
  predicate Keyed(m: map<string, GripTypes.GripType>) {
    forall n | n in m :: m[n].name == n
  }

  /** What the nested probe finds under each parent path. */
  function TypeFinds(client: Client, endpoint: string, wordlist: seq<string>): string -> set<string> {
    path => Union(NestedBucketProbe(client, endpoint, path), Buckets(wordlist, NestedBucketSize))
  }

  /** The fields `finds` gives for each probed type with a non-empty
      result, keyed by type name; a later task for the same name wins. */
  function FoundMap(finds: string -> set<string>, done: seq<Task>): (r: map<string, set<string>>)
    ensures forall n | n in r :: r[n] != {} && n in Names(done)
    decreases |done|
  {
    if done == [] then map[]
    else
      var m := FoundMap(finds, done[..|done| - 1]);
      var t := done[|done| - 1];
      var found := finds(t.parentPath);
      assert forall n | n in Names(done[..|done| - 1]) :: n in Names(done) by {
        forall n | n in Names(done[..|done| - 1]) ensures n in Names(done) {
          var k :| 0 <= k < |done| - 1 && done[..|done| - 1][k].typeName == n;
          assert done[k].typeName == n;
        }
      }
      if found == {} then m else m[t.typeName := found]
  }

  /** The discovered-types map after exploration: the types found replace
      or join the ones before, the rest are untouched. */
  ghost predicate Explored(before: map<string, GripTypes.GripType>, after: map<string, GripTypes.GripType>, found: map<string, set<string>>) {
    (forall n :: n in after <==> n in before || n in found) &&
    (forall n | n in found :: ObjectTypeOf(after[n], n, found[n])) &&
    (forall n | n in before && n !in found :: after[n] == before[n])
  }

  lemma AppendAssoc<T>(a: seq<T>, b: seq<T>, c: seq<T>)
    ensures (a + b) + c == a + (b + c)
  {
  }

  lemma ProbedStep(queue: seq<Task>, explored: set<string>)
    requires queue != []
    ensures var t := queue[0];
      Probed(queue, explored) ==
        if t.depth > MaxDepth || t.typeName in explored then Probed(queue[1..], explored)
        else [t] + Probed(queue[1..], explored + {t.typeName})
  {
  }

  lemma FoundMapSnoc(finds: string -> set<string>, done: seq<Task>, t: Task)
    ensures FoundMap(finds, done + [t]) ==
      if finds(t.parentPath) == {} then FoundMap(finds, done)
      else FoundMap(finds, done)[t.typeName := finds(t.parentPath)]
  {
    assert (done + [t])[..|done|] == done;
  }

  /** One recorded probe keeps the discovered map in step with the finds. */
  lemma ExploredStep(before: map<string, GripTypes.GripType>, after: map<string, GripTypes.GripType>,
                     after': map<string, GripTypes.GripType>, found: map<string, set<string>>, n: string, fields: set<string>)
    requires Explored(before, after, found)
    requires fields == {} ==> after' == after
    requires fields != {} ==> n in after' && ObjectTypeOf(after'[n], n, fields) && after' == after[n := after'[n]]
    ensures Explored(before, after', if fields == {} then found else found[n := fields])
  {
    if fields != {} {
      ExploredKeys(before, after, after', found, n, fields);
      ExploredTypes(after, after', found, n, fields);
      ExploredKept(before, after, after', found, n, fields);
    }
  }

  lemma ExploredKeys(before: map<string, GripTypes.GripType>, after: map<string, GripTypes.GripType>,
                     after': map<string, GripTypes.GripType>, found: map<string, set<string>>, n: string, fields: set<string>)
    requires forall m :: m in after <==> m in before || m in found
    requires n in after' && after' == after[n := after'[n]]
    ensures forall m :: m in after' <==> m in before || m in found[n := fields]
  {
  }

  lemma ExploredTypes(after: map<string, GripTypes.GripType>, after': map<string, GripTypes.GripType>,
                      found: map<string, set<string>>, n: string, fields: set<string>)
    requires forall m | m in found :: m in after && ObjectTypeOf(after[m], m, found[m])
    requires n in after' && ObjectTypeOf(after'[n], n, fields) && after' == after[n := after'[n]]
    ensures forall m | m in found[n := fields] :: ObjectTypeOf(after'[m], m, found[n := fields][m])
  {
    forall m | m in found[n := fields] ensures ObjectTypeOf(after'[m], m, found[n := fields][m]) {
      if m != n {
        assert after'[m] == after[m] && found[n := fields][m] == found[m];
      }
    }
  }

  lemma ExploredKept(before: map<string, GripTypes.GripType>, after: map<string, GripTypes.GripType>,
                     after': map<string, GripTypes.GripType>, found: map<string, set<string>>, n: string, fields: set<string>)
    requires forall m | m in before && m !in found :: m in after && after[m] == before[m]
    requires n in after' && after' == after[n := after'[n]]
    ensures forall m | m in before && m !in found[n := fields] :: after'[m] == before[m]
  {
  }

  // ---------------------------------------------------------------------
  // `buildSchema`.

  const ScalarNames: seq<string> := ["String", "Int", "Float", "Boolean", "ID"]

  /** The types map after the built-in scalars are added over `m`, in order. */
  function WithScalars(m: Schemas.TypeMap, names: seq<string>): (r: Schemas.TypeMap)
    ensures forall n :: n in r <==> n in m || n in names
    decreases |names|
  {
    if names == [] then m
    else
      var n := names[|names| - 1];
      WithScalars(m, names[..|names| - 1])[n := GripTypes.NewType(n, SCALAR)]
  }

  /** The five scalars are SCALAR types whatever was discovered under their
      names; every other discovered type is kept as it was. */
  lemma {:induction false} ScalarsOverride(m: Schemas.TypeMap, names: seq<string>)
    ensures forall n | n in names :: WithScalars(m, names)[n] == GripTypes.NewType(n, SCALAR)
    ensures forall n | n in m && n !in names :: WithScalars(m, names)[n] == m[n]
    decreases |names|
  {
    if names != [] {
      var front := names[..|names| - 1];
      ScalarsOverride(m, front);
      forall n | n in names ensures n in front || n == names[|names| - 1] {
        var k :| 0 <= k < |names| && names[k] == n;
        if k < |front| { assert front[k] == n; }
      }
    }
  }

  // ---------------------------------------------------------------------
  // `loadWordlist`.

  const DefaultWordlist: seq<string> := [
    "user", "users", "me", "viewer", "node", "nodes", "query",
    "id", "name", "email", "password", "username", "profile",
    "login", "logout", "register", "authenticate",
    "create", "update", "delete", "get", "list", "search",
    "admin", "config", "settings", "system",
    "__schema", "__type", "__typename"]

  /** A line the wordlist keeps: non-blank after trimming, and not a `#` comment. */
  predicate IsWordLine(line: string) {
    Trim(line) != [] && !StartsWith(Trim(line), "#")
  }

  /** The trimmed word lines, in file order. */
  function WordLines(lines: seq<string>): (r: seq<string>)
    ensures |r| <= |lines|
    decreases |lines|
  {
    if lines == [] then []
    else WordLines(lines[..|lines| - 1]) + (if IsWordLine(lines[|lines| - 1]) then [Trim(lines[|lines| - 1])] else [])
  }

  /** `w` is the trimmed text of a word line of `lines`. */
  ghost predicate FromWordLine(w: string, lines: seq<string>) {
    exists j | 0 <= j < |lines| :: IsWordLine(lines[j]) && w == Trim(lines[j])
  }

  /** Every kept entry is the trimmed text of a word line of the file. */
  lemma {:induction false} WordLinesFromFile(lines: seq<string>)
    ensures forall k | 0 <= k < |WordLines(lines)| :: FromWordLine(WordLines(lines)[k], lines)
    decreases |lines|
  {
    if lines != [] {
      var front := lines[..|lines| - 1];
      WordLinesFromFile(front);
      var r := WordLines(lines);
      var pre := WordLines(front);
      assert r == pre + (if IsWordLine(lines[|lines| - 1]) then [Trim(lines[|lines| - 1])] else []);
      forall k | 0 <= k < |r| ensures FromWordLine(r[k], lines) {
        if k < |pre| {
          assert FromWordLine(pre[k], front);
          var j :| 0 <= j < |front| && IsWordLine(front[j]) && pre[k] == Trim(front[j]);
          assert lines[j] == front[j] && r[k] == pre[k];
        } else {
          var j := |lines| - 1;
          assert IsWordLine(lines[j]) && r[k] == Trim(lines[j]);
        }
      }
    }
  }

  /** Every word line of the file is kept, trimmed. */
  lemma WordLinesKeepAll(lines: seq<string>)
    ensures forall j | 0 <= j < |lines| && IsWordLine(lines[j]) :: Trim(lines[j]) in WordLines(lines)
  {
    forall j | 0 <= j < |lines| && IsWordLine(lines[j]) ensures Trim(lines[j]) in WordLines(lines) {
      WordLineKept(lines, j);
    }
  }

  lemma {:induction false} WordLineKept(lines: seq<string>, j: nat)
    requires j < |lines| && IsWordLine(lines[j])
    ensures Trim(lines[j]) in WordLines(lines)
    decreases |lines|
  {
    var front := lines[..|lines| - 1];
    var last := lines[|lines| - 1];
    var tail := if IsWordLine(last) then [Trim(last)] else [];
    assert WordLines(lines) == WordLines(front) + tail;
    if j < |front| {
      assert front[j] == lines[j];
      WordLineKept(front, j);
      InLeft(Trim(lines[j]), WordLines(front), tail);
    } else {
      assert tail == [Trim(lines[j])];
    }
  }

  lemma InLeft<T>(x: T, a: seq<T>, b: seq<T>)
    requires x in a
    ensures x in a + b
  {
  }

  /** `loadWordlist`: `resource` is the file's lines, or None when the
      resource is missing or reading it fails; the default list stands in
      then, and when the file keeps no word. The result is never empty. */
  method LoadWordlist(resource: Option<seq<string>>) returns (words: seq<string>)
    ensures words == if resource.None? || WordLines(resource.value) == [] then DefaultWordlist else WordLines(resource.value)
    ensures words != []
  {
    if resource.None? {
      return DefaultWordlist;
    }
    var lines := resource.value;
    words := [];
    for k := 0 to |lines|
      invariant words == WordLines(lines[..k])
    {
      assert lines[..k + 1][..k] == lines[..k];
      var line := Trim(lines[k]);
      if line != [] && !StartsWith(line, "#") {
        words := words + [line];
      }
    }
    assert lines[..|lines|] == lines;
    if words == [] {
      words := DefaultWordlist;
    }
  }

  // ---------------------------------------------------------------------
  // The reconstructor.

  class Reconstructor {
    const client: Client
    var wordlist: seq<string>
    var discoveredTypes: map<string, GripTypes.GripType>
    var exploredTypes: set<string>
    var explorationQueue: seq<Task>
    var cancelled: bool

    /** `new SchemaReconstructor(httpClient)`: loads the wordlist, starts empty. */
    constructor (client: Client, resource: Option<seq<string>>)
      ensures this.client == client && wordlist != []
      ensures wordlist == if resource.None? || WordLines(resource.value) == [] then DefaultWordlist else WordLines(resource.value)
      ensures discoveredTypes == map[] && exploredTypes == {} && explorationQueue == [] && !cancelled
    {
      var words := LoadWordlist(resource);
      this.client := client;
      wordlist := words;
      discoveredTypes := map[];
      exploredTypes := {};
      explorationQueue := [];
      cancelled := false;
    }

    /** `cancel`. */
    method Cancel()
      modifies this
      ensures cancelled
      ensures wordlist == old(wordlist) && discoveredTypes == old(discoveredTypes)
      ensures exploredTypes == old(exploredTypes) && explorationQueue == old(explorationQueue)
    {
      cancelled := true;
    }

    /** `setWordlist`: the candidates replaced. */
    method SetWordlist(words: seq<string>)
      modifies this
      ensures wordlist == words
      ensures discoveredTypes == old(discoveredTypes) && exploredTypes == old(exploredTypes)
      ensures explorationQueue == old(explorationQueue) && cancelled == old(cancelled)
    {
      wordlist := words;
    }

    /** `addToWordlist`: candidates appended, duplicates kept. */
    method AddToWordlist(words: seq<string>)
      modifies this
      ensures wordlist == old(wordlist) + words
      ensures discoveredTypes == old(discoveredTypes) && exploredTypes == old(exploredTypes)
      ensures explorationQueue == old(explorationQueue) && cancelled == old(cancelled)
    {
      wordlist := wordlist + words;
    }

    /** `probeRootType`: every bucket of 64 candidates probed, the finds
      merged; a cancelled run probes nothing. */
    method ProbeRootType(endpoint: string, rootType: string) returns (found: set<string>)
      ensures found == if cancelled then {} else RootProbe(client, endpoint, wordlist)(rootType == "Mutation")
    {
      found := {};
      var buckets := CreateBuckets(wordlist, BucketSize);
      if cancelled {
        return;
      }
      ghost var each := RootBucketProbe(client, endpoint, rootType == "Mutation");
      for k := 0 to |buckets|
        invariant found == Union(each, buckets[..k])
      {
        assert buckets[..k + 1][..k] == buckets[..k];
        var more := ProbeBucket(client, endpoint, buckets[k], rootType == "Mutation");
        assert more == each(buckets[k]);
        found := found + more;
      }
      assert buckets[..|buckets|] == buckets;
    }

    /** `probeTypeFields`: every bucket of 32 candidates probed under the path. */
    method ProbeTypeFields(endpoint: string, parentPath: string) returns (found: set<string>)
      ensures found == if cancelled then {} else
        TypeFinds(client, endpoint, wordlist)(parentPath)
    {
      found := {};
      var buckets := CreateBuckets(wordlist, NestedBucketSize);
      if cancelled {
        return;
      }
      ghost var each := NestedBucketProbe(client, endpoint, parentPath);
      for k := 0 to |buckets|
        invariant found == Union(each, buckets[..k])
      {
        assert buckets[..k + 1][..k] == buckets[..k];
        var more := NestedBucket(client, endpoint, parentPath, buckets[k]);
        assert more == each(buckets[k]);
        found := found + more;
      }
      assert buckets[..|buckets|] == buckets;
    }

    /** `probeFieldTypes`: each Query field probed for its type, the types
      set in place and the object types queued for exploration. */
    method ProbeFieldTypes(endpoint: string)
      requires Keyed(discoveredTypes)
      modifies this
      ensures Keyed(discoveredTypes)
      ensures "Query" !in old(discoveredTypes) || cancelled ==>
        discoveredTypes == old(discoveredTypes) && explorationQueue == old(explorationQueue)
      ensures "Query" in old(discoveredTypes) && !cancelled ==>
        var q := old(discoveredTypes)["Query"];
        discoveredTypes == old(discoveredTypes)["Query" := q.(fields := RetypedFields(client, endpoint, q.fields, exploredTypes))] &&
        explorationQueue == old(explorationQueue) + NewTasks(client, endpoint, q.fields, exploredTypes)
      ensures wordlist == old(wordlist) && exploredTypes == old(exploredTypes) && cancelled == old(cancelled)
    {
      if "Query" !in discoveredTypes || cancelled {
        return;
      }
      var q := discoveredTypes["Query"];
      var fields, tasks := ProbeEachField(client, endpoint, q.fields, exploredTypes);
      explorationQueue := explorationQueue + tasks;
      discoveredTypes := discoveredTypes["Query" := q.(fields := fields)];
    }

    /** `exploreDiscoveredTypes`: the queue drained in order; each task
      within the depth bound whose type is new is marked explored, probed,
      and recorded when the probe found fields. Nothing is queued, so the
      loop ends after at most as many rounds as the queue had tasks. */
    method ExploreDiscoveredTypes(endpoint: string)
      requires Keyed(discoveredTypes)
      modifies this
      ensures Keyed(discoveredTypes)
      ensures cancelled ==>
        (discoveredTypes == old(discoveredTypes) && exploredTypes == old(exploredTypes) &&
         explorationQueue == old(explorationQueue))
      ensures !cancelled ==>
        (explorationQueue == [] &&
         var done := Probed(old(explorationQueue), old(exploredTypes));
         exploredTypes == old(exploredTypes) + Names(done) &&
         Explored(old(discoveredTypes), discoveredTypes, FoundMap(TypeFinds(client, endpoint, wordlist), done)))
      ensures wordlist == old(wordlist) && cancelled == old(cancelled)
    {
      ghost var done: seq<Task> := [];
      ghost var finds := TypeFinds(client, endpoint, wordlist);
      while explorationQueue != [] && !cancelled
        invariant Keyed(discoveredTypes)
        invariant done + Probed(explorationQueue, exploredTypes) == Probed(old(explorationQueue), old(exploredTypes))
        invariant exploredTypes == old(exploredTypes) + Names(done)
        invariant Explored(old(discoveredTypes), discoveredTypes, FoundMap(finds, done))
        invariant cancelled == old(cancelled) && wordlist == old(wordlist)
        invariant cancelled ==>
          (discoveredTypes == old(discoveredTypes) && exploredTypes == old(exploredTypes) &&
           explorationQueue == old(explorationQueue))
        decreases |explorationQueue|
      {
        var task := explorationQueue[0];
        ProbedStep(explorationQueue, exploredTypes);
        ghost var before := discoveredTypes;
        var probed := ExploreNext(endpoint, finds);
        if probed {
          ExploredStep(old(discoveredTypes), before, discoveredTypes, FoundMap(finds, done), task.typeName, finds(task.parentPath));
          FoundMapSnoc(finds, done, task);
          NamesSnoc(done, task);
          AppendAssoc(done, [task], Probed(explorationQueue, exploredTypes));
          done := done + [task];
        }
      }
      if !cancelled {
        assert done + Probed(explorationQueue, exploredTypes) == done;
      }
    }

    /** One round of the exploration loop: the head task is taken off the
      queue; one within the depth bound for a type not explored yet is
      marked explored and probed, and its type is recorded when the probe
      found fields. */
    method ExploreNext(endpoint: string, ghost finds: string -> set<string>) returns (probed: bool)
      requires finds == TypeFinds(client, endpoint, wordlist)
      requires explorationQueue != [] && !cancelled && Keyed(discoveredTypes)
      modifies this
      ensures Keyed(discoveredTypes)
      ensures explorationQueue == old(explorationQueue)[1..]
      ensures wordlist == old(wordlist) && cancelled == old(cancelled)
      ensures var t := old(explorationQueue)[0];
        probed == (t.depth <= MaxDepth && t.typeName !in old(exploredTypes))
      ensures !probed ==> discoveredTypes == old(discoveredTypes) && exploredTypes == old(exploredTypes)
      ensures var t := old(explorationQueue)[0];
        var found := finds(t.parentPath);
        probed ==>
          (exploredTypes == old(exploredTypes) + {t.typeName} &&
           (found == {} ==> discoveredTypes == old(discoveredTypes)) &&
           (found != {} ==>
              (t.typeName in discoveredTypes && ObjectTypeOf(discoveredTypes[t.typeName], t.typeName, found) &&
               discoveredTypes == old(discoveredTypes)[t.typeName := discoveredTypes[t.typeName]])))
    {
      var task := explorationQueue[0];
      explorationQueue := explorationQueue[1..];
      if task.depth > MaxDepth || task.typeName in exploredTypes {
        return false;
      }
      exploredTypes := exploredTypes + {task.typeName};
      var typeFields := ProbeTypeFields(endpoint, task.parentPath);
      RecordType(task.typeName, typeFields);
      probed := true;
    }

    /** A probed type with fields is stored as an OBJECT type of
      `Unknown`-typed fields; one without fields is not stored. */
    method RecordType(name: string, fields: set<string>)
      requires Keyed(discoveredTypes)
      modifies this
      ensures Keyed(discoveredTypes)
      ensures wordlist == old(wordlist) && cancelled == old(cancelled)
      ensures exploredTypes == old(exploredTypes) && explorationQueue == old(explorationQueue)
      ensures fields == {} ==> discoveredTypes == old(discoveredTypes)
      ensures fields != {} ==>
        (name in discoveredTypes && ObjectTypeOf(discoveredTypes[name], name, fields) &&
         discoveredTypes == old(discoveredTypes)[name := discoveredTypes[name]])
    {
      if fields != {} {
        var t := NewObjectType(name, fields);
        discoveredTypes := discoveredTypes[name := t];
      }
    }

    /** `buildSchema`: the discovered types in hash order, the root names
      of the roots found, then the five scalars over any same-named type. */
    method BuildSchema(endpoint: string) returns (schema: Schemas.Schema)
      requires Keyed(discoveredTypes)
      ensures fresh(schema) && schema.Valid()
      ensures schema.types == WithScalars(discoveredTypes, ScalarNames)
      ensures forall j, k | 0 <= j < k < |schema.order| :: schema.order[k] in discoveredTypes ==> schema.order[j] in discoveredTypes
      ensures schema.queryTypeName == (if "Query" in discoveredTypes then Some("Query") else None)
      ensures schema.mutationTypeName == (if "Mutation" in discoveredTypes then Some("Mutation") else None)
      ensures schema.subscriptionTypeName == None && schema.directives == []
      ensures schema.isReconstructed && !schema.isPartial && schema.sourceEndpoint == Some(endpoint)
    {
      schema := new Schemas.Schema();
      schema.SetSourceEndpoint(Some(endpoint));
      schema.SetReconstructed(true);
      AddDiscoveredTypes(schema, discoveredTypes);
      if "Query" in discoveredTypes {
        schema.SetQueryTypeName(Some("Query"));
      }
      if "Mutation" in discoveredTypes {
        schema.SetMutationTypeName(Some("Mutation"));
      }
      AddScalarTypes(schema, discoveredTypes);
    }

    /** `reconstructSchema`: the state reset, then the four phases. No
      Query field found gives the empty, partial schema; otherwise the
      schema is built from the discovered types, with Query as its query
      root, Mutation when that root had fields, and every other type one
      that the exploration probed. */
    method ReconstructSchema(endpoint: string) returns (schema: Schemas.Schema)
      modifies this
      ensures fresh(schema) && schema.Valid()
      ensures schema.isReconstructed && schema.sourceEndpoint == Some(endpoint)
      ensures wordlist == old(wordlist) && !cancelled
      ensures var queryFields := RootProbe(client, endpoint, wordlist)(false);
        queryFields == {} ==>
          (schema.isPartial && schema.types == map[] && schema.queryTypeName == None &&
           discoveredTypes == map[] && exploredTypes == {} && explorationQueue == [])
      ensures var queryFields := RootProbe(client, endpoint, wordlist)(false);
        var mutationFields := RootProbe(client, endpoint, wordlist)(true);
        queryFields != {} ==>
          (!schema.isPartial && schema.queryTypeName == Some("Query") && explorationQueue == [] &&
           Keyed(discoveredTypes) && "Query" in discoveredTypes &&
           (mutationFields != {} ==> "Mutation" in discoveredTypes && schema.mutationTypeName == Some("Mutation")) &&
           (forall n | n in discoveredTypes :: n == "Query" || n == "Mutation" || n in exploredTypes) &&
           schema.types == WithScalars(discoveredTypes, ScalarNames))
    {
      var queryFields := DiscoverRootTypes(endpoint);
      if queryFields == {} {
        schema := CreateEmptySchema(endpoint);
        return;
      }
      ProbeAndExplore(endpoint);
      schema := BuildSchema(endpoint);
    }

    /** Phases 3 and 4 of `reconstructSchema`: the Query fields typed, then
      the queued types explored. The types already discovered stay, and
      every type added is one that was explored. */
    method ProbeAndExplore(endpoint: string)
      requires Keyed(discoveredTypes) && !cancelled && explorationQueue == []
      modifies this
      ensures Keyed(discoveredTypes) && !cancelled && explorationQueue == [] && wordlist == old(wordlist)
      ensures forall n | n in old(discoveredTypes) :: n in discoveredTypes
      ensures forall n | n in discoveredTypes :: n in old(discoveredTypes) || n in exploredTypes
    {
      ProbeFieldTypes(endpoint);
      ghost var queued := explorationQueue;
      ghost var explored := exploredTypes;
      ghost var typed := discoveredTypes;
      ExploreDiscoveredTypes(endpoint);
      ghost var done := Probed(queued, explored);
      forall n | n in discoveredTypes && n !in typed ensures n in exploredTypes {
        assert n in FoundMap(TypeFinds(client, endpoint, wordlist), done);
      }
    }

    /** Phases 1 and 2 of `reconstructSchema`, after the reset: the Query
      root probed, and the Mutation root when Query had fields; each root
      with fields becomes an OBJECT type of `Unknown`-typed fields. */
    method DiscoverRootTypes(endpoint: string) returns (queryFields: set<string>)
      modifies this
      ensures queryFields == RootProbe(client, endpoint, wordlist)(false)
      ensures wordlist == old(wordlist) && !cancelled && exploredTypes == {} && explorationQueue == []
      ensures Keyed(discoveredTypes)
      ensures queryFields == {} ==> discoveredTypes == map[]
      ensures queryFields != {} ==> "Query" in discoveredTypes && ObjectTypeOf(discoveredTypes["Query"], "Query", queryFields)
      ensures var mutationFields := RootProbe(client, endpoint, wordlist)(true);
        queryFields != {} ==>
          ("Mutation" in discoveredTypes <==> mutationFields != {}) &&
          (mutationFields != {} ==> ObjectTypeOf(discoveredTypes["Mutation"], "Mutation", mutationFields))
      ensures forall n | n in discoveredTypes :: n == "Query" || n == "Mutation"
    {
      discoveredTypes := map[];
      exploredTypes := {};
      explorationQueue := [];
      cancelled := false;
      queryFields := DiscoverRoot(endpoint, "Query");
      if queryFields == {} {
        return;
      }
      var mutationFields := DiscoverRoot(endpoint, "Mutation");
    }

    /** One root probed; a root with fields becomes an OBJECT type of
      `Unknown`-typed fields under the root's name. */
    method DiscoverRoot(endpoint: string, rootType: string) returns (fields: set<string>)
      requires !cancelled && Keyed(discoveredTypes)
      modifies this
      ensures fields == RootProbe(client, endpoint, wordlist)(rootType == "Mutation")
      ensures wordlist == old(wordlist) && !cancelled
      ensures exploredTypes == old(exploredTypes) && explorationQueue == old(explorationQueue)
      ensures Keyed(discoveredTypes)
      ensures fields == {} ==> discoveredTypes == old(discoveredTypes)
      ensures fields != {} ==>
        (rootType in discoveredTypes && ObjectTypeOf(discoveredTypes[rootType], rootType, fields) &&
         discoveredTypes == old(discoveredTypes)[rootType := discoveredTypes[rootType]])
    {
      fields := ProbeRootType(endpoint, rootType);
      if fields != {} {
        var t := NewObjectType(rootType, fields);
        discoveredTypes := discoveredTypes[rootType := t];
      }
    }

    /** `getAllDiscoveredFields`: every field name of every discovered type. */
    method GetAllDiscoveredFields() returns (all: set<string>)
      ensures all == set n, k | n in discoveredTypes && 0 <= k < |discoveredTypes[n].fields| :: discoveredTypes[n].fields[k].name
    {
      all := {};
      var rest := discoveredTypes.Keys;
      while rest != {}
        invariant rest <= discoveredTypes.Keys
        invariant all == set n, k | n in discoveredTypes.Keys - rest && 0 <= k < |discoveredTypes[n].fields| :: discoveredTypes[n].fields[k].name
        decreases |rest|
      {
        var n :| n in rest;
        var fs := discoveredTypes[n].fields;
        for k := 0 to |fs|
          invariant all == (set m, j | m in discoveredTypes.Keys - rest && 0 <= j < |discoveredTypes[m].fields| :: discoveredTypes[m].fields[j].name)
                           + (set j | 0 <= j < k :: fs[j].name)
        {
          all := all + {fs[k].name};
        }
        rest := rest - {n};
      }
    }
  }

  /** The `discoveredTypes.values()` loop of `buildSchema`, in hash order. */
  method AddDiscoveredTypes(schema: Schemas.Schema, m: Schemas.TypeMap)
    requires schema.Valid() && schema.types == map[] && schema.order == [] && Keyed(m)
    modifies schema
    ensures schema.Valid() && schema.types == m
    ensures forall k | 0 <= k < |schema.order| :: schema.order[k] in m
    ensures schema.queryTypeName == old(schema.queryTypeName) && schema.mutationTypeName == old(schema.mutationTypeName)
    ensures schema.subscriptionTypeName == old(schema.subscriptionTypeName) && schema.directives == old(schema.directives)
    ensures schema.sourceEndpoint == old(schema.sourceEndpoint)
    ensures schema.isReconstructed == old(schema.isReconstructed) && schema.isPartial == old(schema.isPartial)
  {
    var rest := m.Keys;
    while rest != {}
      invariant rest <= m.Keys
      invariant schema.Valid()
      invariant schema.types.Keys == m.Keys - rest
      invariant forall n | n in schema.types :: schema.types[n] == m[n]
      invariant forall k | 0 <= k < |schema.order| :: schema.order[k] in m
      invariant schema.queryTypeName == old(schema.queryTypeName) && schema.mutationTypeName == old(schema.mutationTypeName)
      invariant schema.subscriptionTypeName == old(schema.subscriptionTypeName) && schema.directives == old(schema.directives)
      invariant schema.sourceEndpoint == old(schema.sourceEndpoint)
      invariant schema.isReconstructed == old(schema.isReconstructed) && schema.isPartial == old(schema.isPartial)
      decreases |rest|
    {
      var n :| n in rest;
      AddDiscoveredRound(schema, m, rest, n);
      rest := rest - {n};
    }
  }

  /** One round of the loop above: the type under `n` goes in. */
  method AddDiscoveredRound(schema: Schemas.Schema, m: Schemas.TypeMap, ghost rest: set<string>, n: string)
    requires n in rest && rest <= m.Keys && Keyed(m)
    requires schema.Valid() && schema.types.Keys == m.Keys - rest
    requires forall k | k in schema.types :: schema.types[k] == m[k]
    requires forall k | 0 <= k < |schema.order| :: schema.order[k] in m
    modifies schema
    ensures schema.Valid() && schema.types.Keys == m.Keys - (rest - {n})
    ensures forall k | k in schema.types :: schema.types[k] == m[k]
    ensures forall k | 0 <= k < |schema.order| :: schema.order[k] in m
    ensures schema.queryTypeName == old(schema.queryTypeName) && schema.mutationTypeName == old(schema.mutationTypeName)
    ensures schema.subscriptionTypeName == old(schema.subscriptionTypeName) && schema.directives == old(schema.directives)
    ensures schema.sourceEndpoint == old(schema.sourceEndpoint)
    ensures schema.isReconstructed == old(schema.isReconstructed) && schema.isPartial == old(schema.isPartial)
  {
    var t := m[n];
    assert t.name == n;
    schema.AddType(t);
    assert m.Keys - (rest - {n}) == (m.Keys - rest) + {n};
  }

  /** The scalar loop of `buildSchema`: the five built-in scalars added
      after the discovered types, each replacing a type of the same name. */
  method AddScalarTypes(schema: Schemas.Schema, m: Schemas.TypeMap)
    requires schema.Valid() && schema.types == m
    requires forall k | 0 <= k < |schema.order| :: schema.order[k] in m
    modifies schema
    ensures schema.Valid() && schema.types == WithScalars(m, ScalarNames)
    ensures forall j, k | 0 <= j < k < |schema.order| :: schema.order[k] in m ==> schema.order[j] in m
    ensures schema.queryTypeName == old(schema.queryTypeName) && schema.mutationTypeName == old(schema.mutationTypeName)
    ensures schema.subscriptionTypeName == old(schema.subscriptionTypeName) && schema.directives == old(schema.directives)
    ensures schema.sourceEndpoint == old(schema.sourceEndpoint)
    ensures schema.isReconstructed == old(schema.isReconstructed) && schema.isPartial == old(schema.isPartial)
  {
    ghost var firstPart := schema.order;
    for k := 0 to |ScalarNames|
      invariant schema.Valid() && schema.types == WithScalars(m, ScalarNames[..k])
      invariant firstPart <= schema.order
      invariant forall j | 0 <= j < |firstPart| :: firstPart[j] in m
      invariant forall j | |firstPart| <= j < |schema.order| :: schema.order[j] !in m
      invariant schema.queryTypeName == old(schema.queryTypeName) && schema.mutationTypeName == old(schema.mutationTypeName)
      invariant schema.subscriptionTypeName == old(schema.subscriptionTypeName) && schema.directives == old(schema.directives)
      invariant schema.sourceEndpoint == old(schema.sourceEndpoint)
      invariant schema.isReconstructed == old(schema.isReconstructed) && schema.isPartial == old(schema.isPartial)
    {
      AddScalarRound(schema, m, firstPart, ScalarNames, k);
    }
    assert ScalarNames[..|ScalarNames|] == ScalarNames;
  }

  /** One round of the scalar loop: `names[k]` goes in as a scalar, and a
      name it appends to the order is not one of the discovered types. */
  method AddScalarRound(schema: Schemas.Schema, ghost m: Schemas.TypeMap, ghost firstPart: seq<string>,
                        names: seq<string>, k: nat)
    requires k < |names|
    requires schema.Valid() && schema.types == WithScalars(m, names[..k])
    requires firstPart <= schema.order
    requires forall j | |firstPart| <= j < |schema.order| :: schema.order[j] !in m
    modifies schema
    ensures schema.Valid() && schema.types == WithScalars(m, names[..k + 1])
    ensures firstPart <= schema.order
    ensures forall j | |firstPart| <= j < |schema.order| :: schema.order[j] !in m
    ensures schema.queryTypeName == old(schema.queryTypeName) && schema.mutationTypeName == old(schema.mutationTypeName)
    ensures schema.subscriptionTypeName == old(schema.subscriptionTypeName) && schema.directives == old(schema.directives)
    ensures schema.sourceEndpoint == old(schema.sourceEndpoint)
    ensures schema.isReconstructed == old(schema.isReconstructed) && schema.isPartial == old(schema.isPartial)
  {
    var name := names[k];
    WithScalarsSnoc(m, names, k);
    assert name !in schema.types ==> name !in m;
    schema.AddType(GripTypes.NewType(name, SCALAR));
  }

  lemma WithScalarsSnoc(m: Schemas.TypeMap, names: seq<string>, k: nat)
    requires k < |names|
    ensures WithScalars(m, names[..k + 1]) == WithScalars(m, names[..k])[names[k] := GripTypes.NewType(names[k], SCALAR)]
  {
    assert names[..k + 1][..k] == names[..k];
  }

  /** `createEmptySchema`: no types, partial and reconstructed. */
  method CreateEmptySchema(endpoint: string) returns (schema: Schemas.Schema)
    ensures fresh(schema) && schema.Valid()
    ensures schema.types == map[] && schema.order == [] && schema.directives == []
    ensures schema.queryTypeName == None && schema.mutationTypeName == None && schema.subscriptionTypeName == None
    ensures schema.isPartial && schema.isReconstructed && schema.sourceEndpoint == Some(endpoint)
  {
    schema := new Schemas.Schema();
    schema.SetSourceEndpoint(Some(endpoint));
    schema.SetReconstructed(true);
    schema.SetPartial(true);
  }
}
