/** The slice of the Gson tree model the core reads: JSON values, objects as
    ordered member lists, and the accessors that throw on the wrong shape. */
module Json {
  import opened Wrappers
  import Text

  datatype Json =
    | JNull
    | JBool(b: bool)
    | JNum(text: string)
    | JStr(s: string)
    | JArr(items: seq<Json>)
    | JObj(members: seq<(string, Json)>)

  type Members = seq<(string, Json)>

  /** `JsonObject.has`. */
  predicate Has(o: Members, key: string) {
    exists i | 0 <= i < |o| :: o[i].0 == key
  }

  /** `JsonObject.get`: the value of the member with this key; Java null
      (None) when there is none. A parsed Gson object holds each key once
      (a repeated key replaces the earlier value in its place), so on the
      objects Gson builds the first member with the key is the only one;
      on a member list with a repeated key this reads the first, where
      Gson would have kept the last. */
  function Get(o: Members, key: string): (r: Option<Json>)
    ensures r.Some? <==> Has(o, key)
    ensures r.Some? ==> exists i | 0 <= i < |o| :: o[i] == (key, r.value)
  {
    if o == [] then None
    else if o[0].0 == key then Some(o[0].1)
    else Get(o[1..], key)
  }

  /** `JsonObject.keySet`. */
  function KeySet(o: Members): (r: set<string>)
    ensures forall k :: k in r <==> Has(o, k)
  {
    set i | 0 <= i < |o| :: o[i].0
  }

  /** `has(key) && !get(key).isJsonNull()`. */
  predicate HasNonNull(o: Members, key: string) {
    Get(o, key).Some? && Get(o, key).value != JNull
  }

  /** `getAsJsonObject(key)`: a cast, so a missing member gives null and a
      member of another shape throws. */
  function GetAsJsonObject(o: Members, key: string): (r: Outcome<Option<Members>>)
    ensures r == Ok(None) <==> !Has(o, key)
    ensures r.Ok? && r.value.Some? ==> Get(o, key) == Some(JObj(r.value.value))
  {
    match Get(o, key)
    case None => Ok(None)
    case Some(JObj(m)) => Ok(Some(m))
    case Some(_) => Thrown
  }

  /** `getAsJsonArray(key)`, a cast like `getAsJsonObject`. */
  function GetAsJsonArray(o: Members, key: string): (r: Outcome<Option<seq<Json>>>)
    ensures r == Ok(None) <==> !Has(o, key)
    ensures r.Ok? && r.value.Some? ==> Get(o, key) == Some(JArr(r.value.value))
  {
    match Get(o, key)
    case None => Ok(None)
    case Some(JArr(a)) => Ok(Some(a))
    case Some(_) => Thrown
  }

  /** `has(k) && get(k).isJsonArray() ? getAsJsonArray(k) : <skip>`: the
      items of an array member, none when the member is absent or not an array. */
  function ArrayMember(o: Members, key: string): (r: seq<Json>)
    ensures Get(o, key) == Some(JArr(r)) || r == []
  {
    match Get(o, key)
    case Some(JArr(items)) => items
    case _ => []
  }

  /** `JsonElement.getAsString`: primitives give their text, a one-element
      array delegates to its element, everything else throws. */
  function GetAsString(e: Json): (r: Outcome<string>)
    ensures e.JStr? ==> r == Ok(e.s)
    ensures e.JNull? || e.JObj? ==> r == Thrown
  {
    match e
    case JStr(s) => Ok(s)
    case JNum(t) => Ok(t)
    case JBool(b) => Ok(if b then "true" else "false")
    case JArr(items) => if |items| == 1 then GetAsString(items[0]) else Thrown
    case _ => Thrown
  }

  /** `JsonElement.getAsBoolean`: a boolean gives its value, any other
      primitive parses its text case-insensitively as "true". */
  function GetAsBoolean(e: Json): (r: Outcome<bool>)
    ensures e.JBool? ==> r == Ok(e.b)
    ensures e.JNull? || e.JObj? ==> r == Thrown
  {
    match e
    case JBool(b) => Ok(b)
    case JStr(s) => Ok(|s| == 4 && Text.ToLower(s) == "true")
    case JNum(_) => Ok(false)
    case JArr(items) => if |items| == 1 then GetAsBoolean(items[0]) else Thrown
    case _ => Thrown
  }

  /** `JsonElement.getAsJsonObject()` on an element: throws unless it is an object. */
  function AsObject(e: Json): (r: Outcome<Members>)
    ensures r.Ok? <==> e.JObj?
  {
    if e.JObj? then Ok(e.members) else Thrown
  }

  /** An optional string member read as `has(k) && !get(k).isJsonNull() ? get(k).getAsString() : null`. */
  function OptString(o: Members, key: string): (r: Outcome<Option<string>>)
    ensures !HasNonNull(o, key) ==> r == Ok(None)
    ensures r.Ok? && r.value.Some? ==> HasNonNull(o, key) && GetAsString(Get(o, key).value) == Ok(r.value.value)
  {
    if HasNonNull(o, key) then
      match GetAsString(Get(o, key).value)
      case Ok(s) => Ok(Some(s))
      case Thrown => Thrown
    else Ok(None)
  }

  /** A string member read as `has(k) ? get(k).getAsString() : null`: a JSON
      null member throws. */
  function StringIfPresent(o: Members, key: string): (r: Outcome<Option<string>>)
    ensures !Has(o, key) ==> r == Ok(None)
    ensures Has(o, key) && Get(o, key).value == JNull ==> r == Thrown
  {
    match Get(o, key)
    case None => Ok(None)
    case Some(v) =>
      match GetAsString(v)
      case Ok(s) => Ok(Some(s))
      case Thrown => Thrown
  }
}
