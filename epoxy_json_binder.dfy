/** EpoxyJsonBinder: the helpers a generated binder calls to read the members of an
    org.json JSONObject. A JSONObject is modelled as its member map and a JSONArray as
    its element sequence; every accessor of org.json the helpers use reads one member
    or one element and either converts it or fails with a JSONException. The opt
    accessors never fail: they fall back to the type's default (false, 0, "" or null). */
module EpoxyJsonBinder {
  import opened Wrappers
  import opened JsonTokens

  /** A value held by a JSONObject or JSONArray. Numbers are integral (floating point is
      not part of this model). */
  datatype JsonNode =
    | NNull                                   // JSONObject.NULL
    | NBool(b: bool)
    | NNumber(n: int)
    | NString(s: string)
    | NArray(items: seq<JsonNode>)
    | NObject(members: map<string, JsonNode>)

  type JSONObject = map<string, JsonNode>
  type JSONArray = seq<JsonNode>

  /** The JSONException the get accessors raise. */
  datatype JsonError =
    | NoValue(name: string)                   // "No value for <name>"
    | Mismatch(node: JsonNode)                // the value is of another kind, or null

  // ---------------------------------------------------------------------------
  // Conversions of one value, as org.json's get and opt accessors apply them

  /** Number.intValue(): the low 32 bits, as two's complement. */
  function Int32(n: int): (r: int)
    ensures INT_MIN <= r <= INT_MAX
    ensures (r - n) % 0x1_0000_0000 == 0
  {
    var m := n % 0x1_0000_0000;
    if m <= INT_MAX then m else m - 0x1_0000_0000
  }

  /** Number.longValue(): the low 64 bits, as two's complement. */
  function Int64(n: int): (r: int)
    ensures LONG_MIN <= r <= LONG_MAX
    ensures (r - n) % 0x1_0000_0000_0000_0000 == 0
  {
    var m := n % 0x1_0000_0000_0000_0000;
    if m <= LONG_MAX then m else m - 0x1_0000_0000_0000_0000
  }

  /** The `(short)` cast: the low 16 bits, as two's complement. */
  function Int16(n: int): (r: int)
    ensures SHORT_MIN <= r <= SHORT_MAX
    ensures (r - n) % 0x1_0000 == 0
  {
    var m := n % 0x1_0000;
    if m <= SHORT_MAX then m else m - 0x1_0000
  }

  /** A cast to a width the value already fits leaves it unchanged. */
  lemma NarrowingKeepsInRange(n: int)
    ensures SHORT_MIN <= n <= SHORT_MAX ==> Int16(n) == n
    ensures INT_MIN <= n <= INT_MAX ==> Int32(n) == n
    ensures LONG_MIN <= n <= LONG_MAX ==> Int64(n) == n
  {
  }

  /** The `(short)` cast after intValue() is the `(short)` cast of the number itself:
      the low 16 bits survive the 32-bit truncation. */
  lemma ShortOfInt(n: int)
    ensures Int16(Int32(n)) == Int16(n)
  {
    var k := (Int32(n) - n) / 0x1_0000_0000;
    assert Int32(n) == n + k * 0x1_0000_0000;
    assert Int32(n) == n + (k * 0x1_0000) * 0x1_0000;
    CongruentSameShort(Int32(n), n, k * 0x1_0000);
  }

  lemma CongruentSameShort(x: int, y: int, k: int)
    requires x == y + k * 0x1_0000
    ensures Int16(x) == Int16(y)
  {
    assert x % 0x1_0000 == y % 0x1_0000;
  }

  function AsBoolean(v: JsonNode): Result<bool, JsonError>
  {
    if v.NBool? then Success(v.b) else Failure(Mismatch(v))
  }

  function AsInt(v: JsonNode): Result<int, JsonError>
  {
    if v.NNumber? then Success(Int32(v.n)) else Failure(Mismatch(v))
  }

  function AsLong(v: JsonNode): Result<int, JsonError>
  {
    if v.NNumber? then Success(Int64(v.n)) else Failure(Mismatch(v))
  }

  /** getInt narrowed by the `(short)` cast, as parseShort and parseShortArray apply it. */
  function AsShort(v: JsonNode): (r: Result<int, JsonError>)
    ensures r.Success? <==> AsInt(v).Success?
    ensures r.Success? ==> r.value == Int16(AsInt(v).value) && SHORT_MIN <= r.value <= SHORT_MAX
  {
    if v.NNumber? then Success(Int16(Int32(v.n))) else Failure(Mismatch(v))
  }

  function AsString(v: JsonNode): Result<string, JsonError>
  {
    if v.NString? then Success(v.s) else Failure(Mismatch(v))
  }

  function AsObject(v: JsonNode): Result<JSONObject, JsonError>
  {
    if v.NObject? then Success(v.members) else Failure(Mismatch(v))
  }

  function AsArray(v: JsonNode): Result<JSONArray, JsonError>
  {
    if v.NArray? then Success(v.items) else Failure(Mismatch(v))
  }

  /** jsonObject.get<Kind>(name): the member converted, or a JSONException. */
  function Get<T>(o: JSONObject, name: string, conv: JsonNode -> Result<T, JsonError>): (r: Result<T, JsonError>)
    ensures name !in o ==> r == Failure(NoValue(name))
    ensures name in o ==> r == conv(o[name])
  {
    if name in o then conv(o[name]) else Failure(NoValue(name))
  }

  /** jsonObject.opt<Kind>(name): the member converted when it converts, else `default`. */
  function Opt<T>(o: JSONObject, name: string, conv: JsonNode -> Result<T, JsonError>, default: T): T
  {
    if name in o && conv(o[name]).Success? then conv(o[name]).value else default
  }

  /** The opt accessor is the get accessor with its exceptions replaced by the default. */
  lemma OptIsGetOrDefault<T>(o: JSONObject, name: string, conv: JsonNode -> Result<T, JsonError>, default: T)
    ensures Get(o, name, conv).Success? ==> Opt(o, name, conv, default) == Get(o, name, conv).value
    ensures Get(o, name, conv).Failure? ==> Opt(o, name, conv, default) == default
  {
  }

  // ---------------------------------------------------------------------------
  // The scalar helpers: opt when the field is optional, get otherwise

  /** `optional ? opt<Kind>(name) : get<Kind>(name)`, for any kind. */
  function Select<T>(o: JSONObject, name: string, optional: bool,
                     conv: JsonNode -> Result<T, JsonError>, default: T): (r: Result<T, JsonError>)
    ensures optional ==> r.Success?
    ensures !optional ==> (r.Success? <==> name in o && conv(o[name]).Success?)
    ensures !optional && name !in o ==> r == Failure(NoValue(name))
    ensures name in o && conv(o[name]).Success? ==> r == Success(conv(o[name]).value)
    ensures optional && !(name in o && conv(o[name]).Success?) ==> r == Success(default)
  {
    if optional then Success(Opt(o, name, conv, default)) else Get(o, name, conv)
  }

  function ParseBoolean(o: JSONObject, name: string, optional: bool): (r: Result<bool, JsonError>)
    ensures r.Success? <==> optional || (name in o && o[name].NBool?)
    ensures name in o && o[name].NBool? ==> r == Success(o[name].b)
    ensures optional && !(name in o && o[name].NBool?) ==> r == Success(false)
    ensures !optional && name !in o ==> r == Failure(NoValue(name))
  {
    Select(o, name, optional, AsBoolean, false)
  }

  function ParseInteger(o: JSONObject, name: string, optional: bool): (r: Result<int, JsonError>)
    ensures r.Success? <==> optional || (name in o && o[name].NNumber?)
    ensures name in o && o[name].NNumber? ==> r == Success(Int32(o[name].n))
    ensures optional && !(name in o && o[name].NNumber?) ==> r == Success(0)
    ensures !optional && name !in o ==> r == Failure(NoValue(name))
  {
    Select(o, name, optional, AsInt, 0)
  }

  /** `(short) parseInteger(...)`. */
  function ParseShort(o: JSONObject, name: string, optional: bool): (r: Result<int, JsonError>)
    ensures r.Success? <==> ParseInteger(o, name, optional).Success?
    ensures r.Success? ==> r.value == Int16(ParseInteger(o, name, optional).value)
    ensures r.Failure? ==> r == ParseInteger(o, name, optional)
    ensures r.Success? ==> SHORT_MIN <= r.value <= SHORT_MAX
    ensures name in o && o[name].NNumber? ==> r == Success(Int16(o[name].n))
  {
    var i := ParseInteger(o, name, optional);
    if i.Success? then
      if name in o && o[name].NNumber? then ShortOfInt(o[name].n); Success(Int16(i.value))
      else Success(Int16(i.value))
    else i
  }

  /** parseShort reads the member as parseShortArray reads an element. */
  lemma ParseShortIsAsShort(o: JSONObject, name: string, optional: bool)
    ensures ParseShort(o, name, optional) == Select(o, name, optional, AsShort, 0)
  {
  }

  function ParseLong(o: JSONObject, name: string, optional: bool): (r: Result<int, JsonError>)
    ensures r.Success? <==> optional || (name in o && o[name].NNumber?)
    ensures name in o && o[name].NNumber? ==> r == Success(Int64(o[name].n))
    ensures optional && !(name in o && o[name].NNumber?) ==> r == Success(0)
    ensures !optional && name !in o ==> r == Failure(NoValue(name))
  {
    Select(o, name, optional, AsLong, 0)
  }

  function ParseString(o: JSONObject, name: string, optional: bool): (r: Result<string, JsonError>)
    ensures r.Success? <==> optional || (name in o && o[name].NString?)
    ensures name in o && o[name].NString? ==> r == Success(o[name].s)
    ensures optional && !(name in o && o[name].NString?) ==> r == Success("")
    ensures !optional && name !in o ==> r == Failure(NoValue(name))
  {
    Select(o, name, optional, AsString, "")
  }

  /** The member as a value of `conv`'s kind, or None: optJSONObject and optJSONArray
      answer null for a missing or unconvertible member. */
  function OptNullable<T>(o: JSONObject, name: string, conv: JsonNode -> Result<T, JsonError>): Option<T>
  {
    if name in o && conv(o[name]).Success? then Some(conv(o[name]).value) else None
  }

  /** `optional ? opt<Kind>(name) : get<Kind>(name)` for the kinds whose opt accessor
      answers null. */
  function SelectNullable<T>(o: JSONObject, name: string, optional: bool,
                             conv: JsonNode -> Result<T, JsonError>): (r: Result<Option<T>, JsonError>)
    ensures r.Success? && r.value.Some? <==> name in o && conv(o[name]).Success?
    ensures r.Success? && r.value.Some? ==> r.value.value == conv(o[name]).value
    ensures r.Failure? <==> !optional && !(name in o && conv(o[name]).Success?)
    ensures !optional && name !in o ==> r == Failure(NoValue(name))
  {
    if optional then Success(OptNullable(o, name, conv))
    else
      var g := Get(o, name, conv);
      if g.Success? then Success(Some(g.value)) else Failure(g.error)
  }

  function GetObject(o: JSONObject, name: string, optional: bool): (r: Result<Option<JSONObject>, JsonError>)
    ensures r.Success? && r.value.Some? <==> name in o && o[name].NObject?
    ensures r.Success? && r.value.Some? ==> r.value.value == o[name].members
    ensures r.Failure? <==> !optional && !(name in o && o[name].NObject?)
    ensures !optional && name !in o ==> r == Failure(NoValue(name))
  {
    SelectNullable(o, name, optional, AsObject)
  }

  function GetArray(o: JSONObject, name: string, optional: bool): (r: Result<Option<JSONArray>, JsonError>)
    ensures r.Success? && r.value.Some? <==> name in o && o[name].NArray?
    ensures r.Success? && r.value.Some? ==> r.value.value == o[name].items
    ensures r.Failure? <==> !optional && !(name in o && o[name].NArray?)
    ensures !optional && name !in o ==> r == Failure(NoValue(name))
  {
    SelectNullable(o, name, optional, AsArray)
  }

  // ---------------------------------------------------------------------------
  // The array helpers: look the array up, then copy it element by element

  /** The index of the first element `conv` rejects, or |ja| when there is none. */
  function FirstBad<T>(ja: JSONArray, conv: JsonNode -> Result<T, JsonError>): (k: nat)
    ensures k <= |ja|
    ensures forall i :: 0 <= i < k ==> conv(ja[i]).Success?
    ensures k < |ja| ==> conv(ja[k]).Failure?
  {
    if |ja| == 0 then 0
    else if conv(ja[0]).Failure? then 0
    else 1 + FirstBad(ja[1..], conv)
  }

  /** What an array helper produced, against the array it looked up: null when the
      array is absent; otherwise an array of the same length whose element i converts
      index i; the first failing element's exception otherwise. */
  ghost predicate Copied<T>(o: JSONObject, name: string, optional: bool,
                            conv: JsonNode -> Result<T, JsonError>, r: Result<Option<array<T>>, JsonError>)
    reads if r.Success? && r.value.Some? then {r.value.value} else {}
  {
    var src := GetArray(o, name, optional);
    if src.Failure? then r == Failure(src.error)
    else if src.value.None? then r == Success(None)
    else
      var ja := src.value.value;
      if FirstBad(ja, conv) < |ja| then r == Failure(conv(ja[FirstBad(ja, conv)]).error)
      else
        && r.Success? && r.value.Some?
        && r.value.value.Length == |ja|
        && (forall i :: 0 <= i < |ja| ==> conv(ja[i]) == Success(r.value.value[i]))
  }

  /** The loop every array helper runs: a new array of the JSON array's length, element
      i set from index i. */
  method CopyArray<T(0)>(o: JSONObject, name: string, optional: bool,
                         conv: JsonNode -> Result<T, JsonError>) returns (r: Result<Option<array<T>>, JsonError>)
    ensures r.Success? && r.value.Some? ==> fresh(r.value.value)
    ensures Copied(o, name, optional, conv, r)
  {
    var src := GetArray(o, name, optional);
    if src.Failure? {
      return Failure(src.error);
    }
    if src.value.None? {
      return Success(None);
    }
    var ja := src.value.value;
    var length := |ja|;
    var arr := new T[length];
    for i := 0 to length
      invariant forall j :: 0 <= j < i ==> conv(ja[j]) == Success(arr[j])
      invariant i <= FirstBad(ja, conv)
    {
      var x := conv(ja[i]);
      if x.Failure? {
        return Failure(x.error);
      }
      arr[i] := x.value;
    }
    return Success(Some(arr));
  }

  method ParseBooleanArray(o: JSONObject, name: string, optional: bool) returns (r: Result<Option<array<bool>>, JsonError>)
    ensures r.Success? && r.value.Some? ==> fresh(r.value.value)
    ensures Copied(o, name, optional, AsBoolean, r)
  {
    r := CopyArray(o, name, optional, AsBoolean);
  }

  method ParseIntegerArray(o: JSONObject, name: string, optional: bool) returns (r: Result<Option<array<int>>, JsonError>)
    ensures r.Success? && r.value.Some? ==> fresh(r.value.value)
    ensures Copied(o, name, optional, AsInt, r)
  {
    r := CopyArray(o, name, optional, AsInt);
  }

  /** Every element narrowed by the `(short)` cast. */
  method ParseShortArray(o: JSONObject, name: string, optional: bool) returns (r: Result<Option<array<int>>, JsonError>)
    ensures r.Success? && r.value.Some? ==> fresh(r.value.value)
    ensures Copied(o, name, optional, AsShort, r)
  {
    r := CopyArray(o, name, optional, AsShort);
  }

  method ParseLongArray(o: JSONObject, name: string, optional: bool) returns (r: Result<Option<array<int>>, JsonError>)
    ensures r.Success? && r.value.Some? ==> fresh(r.value.value)
    ensures Copied(o, name, optional, AsLong, r)
  {
    r := CopyArray(o, name, optional, AsLong);
  }

  method ParseStringArray(o: JSONObject, name: string, optional: bool) returns (r: Result<Option<array<string>>, JsonError>)
    ensures r.Success? && r.value.Some? ==> fresh(r.value.value)
    ensures Copied(o, name, optional, AsString, r)
  {
    r := CopyArray(o, name, optional, AsString);
  }
}
