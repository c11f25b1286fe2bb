/** Values of enum types (GripEnumValue). */
module EnumValues {
  import opened Wrappers

  datatype EnumValue = EnumValue(name: string, description: Option<string>, isDeprecated: bool, deprecationReason: Option<string>)

  /** `new GripEnumValue(name)`: not deprecated, no description, no reason. */
  function NewEnumValue(name: string): (v: EnumValue)
    ensures v.name == name && !v.isDeprecated && v.deprecationReason.None?
  {
    EnumValue(name, None, false, None)
  }

  function SetDescription(v: EnumValue, description: Option<string>): (r: EnumValue)
    ensures r.description == description && r.name == v.name && r.isDeprecated == v.isDeprecated
    ensures r == v.(description := description)
  {
    v.(description := description)
  }

  /** `setDeprecated`: sets the flag directly, in either direction. */
  function SetDeprecated(v: EnumValue, deprecated: bool): (r: EnumValue)
    ensures r.isDeprecated == deprecated && r.name == v.name && r.deprecationReason == v.deprecationReason
    ensures r == v.(isDeprecated := deprecated)
  {
    v.(isDeprecated := deprecated)
  }

  /** `setDeprecationReason`: always stores the reason; a non-empty reason
      marks the value deprecated, a null or empty one leaves the flag alone. */
  function SetDeprecationReason(v: EnumValue, reason: Option<string>): (r: EnumValue)
    ensures r.deprecationReason == reason && r.name == v.name && r.description == v.description
    ensures r.isDeprecated <==> v.isDeprecated || (reason.Some? && reason.value != [])
  {
    v.(deprecationReason := reason, isDeprecated := v.isDeprecated || (reason.Some? && reason.value != []))
  }

  /** `equals`: enum values are the same when their names are. */
  predicate SameEnumValue(a: EnumValue, b: EnumValue) {
    a.name == b.name
  }

  /** No sequence of reason updates clears the deprecation flag, and none of
      them changes which value this is. */
  lemma {:induction false} ReasonsNeverUndeprecate(v: EnumValue, reasons: seq<Option<string>>)
    ensures var w := ApplyReasons(v, reasons);
      (v.isDeprecated ==> w.isDeprecated) && SameEnumValue(v, w)
    ensures ApplyReasons(v, reasons).isDeprecated <==>
      v.isDeprecated || exists i | 0 <= i < |reasons| :: reasons[i].Some? && reasons[i].value != []
    decreases |reasons|
  {
    if reasons != [] {
      ReasonsNeverUndeprecate(SetDeprecationReason(v, reasons[0]), reasons[1..]);
      var rest := reasons[1..];
      if exists i | 0 <= i < |rest| :: rest[i].Some? && rest[i].value != [] {
        var i :| 0 <= i < |rest| && rest[i].Some? && rest[i].value != [];
        assert reasons[i + 1] == rest[i];
      }
    }
  }

  /** Several `setDeprecationReason` calls in a row. */
  function ApplyReasons(v: EnumValue, reasons: seq<Option<string>>): (r: EnumValue)
    ensures r.name == v.name
    decreases |reasons|
  {
    if reasons == [] then v else ApplyReasons(SetDeprecationReason(v, reasons[0]), reasons[1..])
  }
}
