/** An abstract JSON value, standing for jsoncpp's `Json::Value` and for the
    parsed documents of the example bidders. Numbers are integers; objects keep
    their members in iteration order (jsoncpp iterates members sorted by name).
    Printing and parsing are not modelled: a `Codec` pairs two functions whose
    round trip a caller assumes where it needs it. */
module Json {
  import opened Wrappers

  datatype Json =
    | Null
    | Bool(b: bool)
    | Int(i: int)
    | Str(s: string)
    | Arr(items: seq<Json>)
    | Obj(members: seq<(string, Json)>)

  /** jsoncpp `empty()`: null, an empty array or an empty object. */
  predicate Empty(j: Json) {
    j.Null? || (j.Arr? && |j.items| == 0) || (j.Obj? && |j.members| == 0)
  }

  /** The first member named `key`, if `j` is an object holding one. */
  function Member(j: Json, key: string): (r: Option<Json>)
    ensures r.Some? ==> j.Obj? && exists i :: 0 <= i < |j.members| && j.members[i] == (key, r.value)
    ensures r.None? ==> !j.Obj? || forall i :: 0 <= i < |j.members| ==> j.members[i].0 != key
  {
    if j.Obj? then Lookup(j.members, key) else None
  }

  function Lookup(members: seq<(string, Json)>, key: string): (r: Option<Json>)
    ensures r.Some? ==> exists i :: 0 <= i < |members| && members[i] == (key, r.value)
    ensures r.None? ==> forall i :: 0 <= i < |members| ==> members[i].0 != key
  {
    if |members| == 0 then None
    else if members[0].0 == key then Some(members[0].1)
    else Lookup(members[1..], key)
  }

  /** The member at position `i` is the one found when no earlier member has its name. */
  lemma {:induction false} LookupAt(members: seq<(string, Json)>, i: int)
    requires 0 <= i < |members|
    requires forall j :: 0 <= j < i ==> members[j].0 != members[i].0
    ensures Lookup(members, members[i].0) == Some(members[i].1)
  {
    if i > 0 {
      assert members[1..][i - 1] == members[i];
      LookupAt(members[1..], i - 1);
    }
  }

  /** jsoncpp `isMember`. */
  predicate IsMember(j: Json, key: string) {
    Member(j, key).Some?
  }

  /** jsoncpp `get(key, default)`: the member when present, otherwise the default. */
  function Get(j: Json, key: string, default: Json): (r: Json)
    ensures IsMember(j, key) ==> r == Member(j, key).value
    ensures !IsMember(j, key) ==> r == default
  {
    Member(j, key).GetOr(default)
  }

  /** jsoncpp `operator[]` on a const value: the member, or null when absent. */
  function At(j: Json, key: string): Json {
    Get(j, key, Null)
  }

  datatype ConversionError = NotConvertible(from: Json)

  /** jsoncpp `asString()`: null reads as "", booleans as "true"/"false";
      numbers, arrays and objects are not convertible. */
  function AsString(j: Json): (r: Result<string, ConversionError>)
    ensures j.Str? ==> r == Ok(j.s)
    ensures r.Err? <==> j.Int? || j.Arr? || j.Obj?
  {
    match j
    case Null => Ok("")
    case Bool(b) => Ok(if b then "true" else "false")
    case Str(s) => Ok(s)
    case _ => Err(NotConvertible(j))
  }

  const MinInt32: int := -0x8000_0000
  const MaxInt32: int := 0x7FFF_FFFF
  const MaxUInt32: int := 0xFFFF_FFFF

  /** jsoncpp `asInt()`: null reads as 0, booleans as 0/1, integers within the
      32-bit signed range as themselves; anything else is not convertible. */
  function AsInt(j: Json): (r: Result<int, ConversionError>)
    ensures r.Ok? ==> MinInt32 <= r.value <= MaxInt32
    ensures j.Int? && MinInt32 <= j.i <= MaxInt32 ==> r == Ok(j.i)
  {
    match j
    case Null => Ok(0)
    case Bool(b) => Ok(if b then 1 else 0)
    case Int(i) => if MinInt32 <= i <= MaxInt32 then Ok(i) else Err(NotConvertible(j))
    case _ => Err(NotConvertible(j))
  }

  /** jsoncpp `asUInt()`: null reads as 0, booleans as 0/1, integers within the
      unsigned 32-bit range as themselves; anything else is not convertible. */
  function AsUInt(j: Json): (r: Result<nat, ConversionError>)
    ensures r.Ok? ==> r.value <= MaxUInt32
    ensures IsUInt(j) ==> r == Ok(j.i)
  {
    match j
    case Null => Ok(0)
    case Bool(b) => Ok(if b then 1 else 0)
    case Int(i) => if 0 <= i <= MaxUInt32 then Ok(i) else Err(NotConvertible(j))
    case _ => Err(NotConvertible(j))
  }

  /** jsoncpp `asDouble()`: null reads as 0, booleans as 0/1, numbers as
      themselves (numbers are integers in this model); strings, arrays and
      objects are not convertible. */
  function AsDouble(j: Json): (r: Result<int, ConversionError>)
    ensures r.Err? <==> j.Str? || j.Arr? || j.Obj?
    ensures j.Int? ==> r == Ok(j.i)
    ensures r.Err? ==> r == Err(NotConvertible(j))
  {
    match j
    case Null => Ok(0)
    case Bool(b) => Ok(if b then 1 else 0)
    case Int(i) => Ok(i)
    case _ => Err(NotConvertible(j))
  }

  /** jsoncpp `isUInt()`: an integer in the unsigned 32-bit range. */
  predicate IsUInt(j: Json) {
    j.Int? && 0 <= j.i <= MaxUInt32
  }

  /** Text rendering and parsing, supplied by the caller (jsoncpp, `JSON.parse`,
      `json.loads` are not modelled). */
  datatype Codec = Codec(toText: Json -> string, fromText: string -> Option<Json>)

  /** The round-trip assumption on one value: what is printed parses back, and
      the printed text is never empty (jsoncpp prints null as "null"). */
  predicate RoundTrips(c: Codec, j: Json) {
    c.toText(j) != "" && c.fromText(c.toText(j)) == Some(j)
  }
}
