/** `WinCostModel`: a named pricing model with JSON parameters that turns the
    price of a win into the cost charged for it, its JSON and binary
    serialisation, and the registry of model functions behind it.

    Prices are integers (the value of an `Amount`); the bid a model receives is
    the type parameter `B`. Model functions are looked up through `getLibrary`
    with the library suffix "win_cost_model". */
module WinCostModel {
  import opened Wrappers
  import opened Json
  import opened Injection

  datatype WinCostModel = WinCostModel(name: string, data: Json)

  /** The default-constructed model: no name, null data. */
  const Default: WinCostModel := WinCostModel("", Null)

  /** `WinCostModel::Model`: computes the cost of a win from the model, the bid
      and the win price. */
  type ModelFn<!B> = (WinCostModel, B, int) -> int

  /** A registry entry: `Model` is a `std::function`, so a registered entry may
      be empty (`None`). */
  type Entry<!B> = Option<ModelFn<B>>

  const LibSufix: string := "win_cost_model"
  const ErrMsg: string := "win cost model"

  /** `NoWinCostModel::evaluate`: the cost is the price. */
  function NoWinCost<B>(model: WinCostModel, bid: B, price: int): int {
    price
  }

  /** `WinCostModel::registerModel` is `Injection.RegisterUnique` on the model map. */

  /** The registry once static initialisation is over: "none" registered by `AtInit`. */
  function StartupRegistry<B>(): (r: map<string, Entry<B>>)
    ensures r.Keys == {"none"} && r["none"].Some?
  {
    RegisterUnique(map[], "none", Some(NoWinCost)).value
  }

  /** The getter the source binds: `std::bind` copies `models` while it is
      still empty, because `getModel` is defined before `atInit`. */
  function BoundAtStartup<B>(): (g: BoundGetter<Entry<B>>)
    ensures g.snapshot == map[]
  {
    Bind(LibSufix, map[], ErrMsg)
  }

  datatype EvalError =
    | ModelNotResolved(e: LibError)  // `getLibrary` fails to find or load the model
    | ModelNotFound(name: string)    // "win cost model '<name>' not found": the entry is empty

  /** The evaluation of a resolved entry: an empty one is an error. */
  function Apply<B>(m: WinCostModel, bid: B, price: int, found: Result<Entry<B>, LibError>): (r: Result<int, EvalError>)
    ensures found.Err? ==> r == Err(ModelNotResolved(found.error))
    ensures found.Ok? && found.value.None? ==> r == Err(ModelNotFound(m.name))
    ensures found.Ok? && found.value.Some? ==> r == Ok(found.value.value(m, bid, price))
  {
    match found
    case Err(e) => Err(ModelNotResolved(e))
    case Ok(None) => Err(ModelNotFound(m.name))
    case Ok(Some(model)) => Ok(model(m, bid, price))
  }

  /** `WinCostModel::evaluate` as written: an unnamed model charges the price;
      a named one is resolved through the bound getter. */
  function EvaluateAsWritten<B>(m: WinCostModel, bid: B, price: int, getModel: BoundGetter<Entry<B>>,
                                load: string -> LoadOutcome<Entry<B>>): (r: Result<int, EvalError>)
    ensures m.name == "" ==> r == Ok(price)
    ensures m.name != "" ==> (r.Ok? <==> m.name in getModel.snapshot && getModel.snapshot[m.name].Some?)
    ensures m.name != "" && m.name in getModel.snapshot && getModel.snapshot[m.name].Some? ==>
              r == Ok(getModel.snapshot[m.name].value(m, bid, price))
    ensures m.name != "" && m.name in getModel.snapshot && getModel.snapshot[m.name].None? ==>
              r == Err(ModelNotFound(m.name))
  {
    if m.name == "" then Ok(NoWinCost(m, bid, price))
    else Apply(m, bid, price, getModel.Call(m.name, load).result)
  }

  /** With the getter the source builds, every named model fails to resolve,
      "none" included, although "none" is registered. */
  lemma NamedModelsNeverResolve<B>(m: WinCostModel, bid: B, price: int, load: string -> LoadOutcome<Entry<B>>)
    requires m.name != ""
    ensures EvaluateAsWritten(m, bid, price, BoundAtStartup(), load).Err?
    ensures m.name == "none" ==> "none" in StartupRegistry<B>()
  {
  }

  /** `evaluate` as intended: named models are looked up in the live
      registry, including what a library loaded on demand registers. */
  function Evaluate<B>(m: WinCostModel, bid: B, price: int, registry: map<string, Entry<B>>,
                       load: string -> LoadOutcome<Entry<B>>): (r: Result<int, EvalError>)
    ensures m.name == "" ==> r == Ok(price)
    ensures m.name != "" && m.name in registry && registry[m.name].Some? ==>
              r == Ok(registry[m.name].value(m, bid, price))
    ensures m.name != "" && m.name in registry && registry[m.name].None? ==> r == Err(ModelNotFound(m.name))
    ensures m.name != "" ==>
              (r.Ok? <==> var found := GetLibrary(m.name, LibSufix, registry, load, ErrMsg).result;
                          found.Ok? && found.value.Some?)
  {
    if m.name == "" then Ok(NoWinCost(m, bid, price))
    else Apply(m, bid, price, GetLibrary(m.name, LibSufix, registry, load, ErrMsg).result)
  }

  /** With the live registry, the "none" model charges the price, like an
      unnamed model. */
  lemma NoneModelChargesPrice<B>(data: Json, bid: B, price: int, load: string -> LoadOutcome<Entry<B>>)
    ensures Evaluate(WinCostModel("none", data), bid, price, StartupRegistry(), load) == Ok(price)
  {
  }

  /** A model registered later is found by the live lookup; an empty one
      registered under that name is reported as not found. */
  lemma RegisteredModelEvaluates<B>(registry: map<string, Entry<B>>, name: string, model: ModelFn<B>,
                                    data: Json, bid: B, price: int, load: string -> LoadOutcome<Entry<B>>)
    requires name != "" && name !in registry
    ensures var live := RegisterUnique(registry, name, Some(model)).value;
            Evaluate(WinCostModel(name, data), bid, price, live, load)
            == Ok(model(WinCostModel(name, data), bid, price))
    ensures var live := RegisterUnique(registry, name, None).value;
            Evaluate(WinCostModel(name, data), bid, price, live, load) == Err(ModelNotFound(name))
  {
  }

  /** `WinCostModel::toJson`: null when unnamed; otherwise an object with the
      name and, unless empty, the data (members in jsoncpp's sorted order). */
  function ToJson(m: WinCostModel): (j: Json)
    ensures m.name == "" <==> j.Null?
    ensures m.name != "" ==> Member(j, "name") == Some(Str(m.name))
    ensures m.name != "" ==> (IsMember(j, "data") <==> !Empty(m.data))
    ensures m.name != "" && !Empty(m.data) ==> Member(j, "data") == Some(m.data)
  {
    if m.name == "" then Null
    else if Empty(m.data) then Obj([("name", Str(m.name))])
    else
      var ms := [("data", m.data), ("name", Str(m.name))];
      assert "data"[0] != "name"[0] && ms[1..] == [("name", Str(m.name))];
      assert Lookup(ms, "name") == Lookup(ms[1..], "name") == Some(Str(m.name));
      Obj(ms)
  }

  datatype JsonError =
    | UnknownField(field: string)   // "unknown win cost model field <field>"
    | BadName(e: ConversionError)   // `asString` on a value it cannot convert

  /** `WinCostModel::fromJson`: members "name" and "data" set the fields, any
      other member is an error. A value with nothing to iterate gives the
      default model; array elements have no member name and are rejected. */
  function FromJson(j: Json): (r: Result<WinCostModel, JsonError>)
    ensures j.Obj? && |j.members| > 0 && j.members[0].0 != "name" && j.members[0].0 != "data" ==>
              r == Err(UnknownField(j.members[0].0))
    ensures r.Ok? && j.Obj? ==> forall i :: 0 <= i < |j.members| ==> j.members[i].0 in {"name", "data"}
    ensures !j.Obj? && !j.Arr? ==> r == Ok(Default)
  {
    match j
    case Obj(ms) => FromMembers(Default, ms)
    case Arr(items) => if |items| == 0 then Ok(Default) else Err(UnknownField(""))
    case _ => Ok(Default)
  }

  /** The member loop of `fromJson`, from the model built so far. */
  function FromMembers(acc: WinCostModel, ms: seq<(string, Json)>): (r: Result<WinCostModel, JsonError>)
    ensures |ms| > 0 && ms[0].0 != "name" && ms[0].0 != "data" ==> r == Err(UnknownField(ms[0].0))
    ensures r.Ok? ==> forall i :: 0 <= i < |ms| ==> ms[i].0 == "name" || ms[i].0 == "data"
    decreases |ms|
  {
    if |ms| == 0 then Ok(acc)
    else
      var (key, value) := ms[0];
      if key == "name" then
        match AsString(value)
        case Err(e) => Err(BadName(e))
        case Ok(s) => FromMembers(acc.(name := s), ms[1..])
      else if key == "data" then FromMembers(acc.(data := value), ms[1..])
      else Err(UnknownField(key))
  }

  /** What survives `toJson`: an unnamed model loses its data, and empty data
      reads back as null. */
  function Normalize(m: WinCostModel): WinCostModel {
    if m.name == "" then Default
    else if Empty(m.data) then WinCostModel(m.name, Null)
    else m
  }

  /** `fromJson` undoes `toJson` up to `Normalize`. */
  lemma FromJsonToJson(m: WinCostModel)
    ensures FromJson(ToJson(m)) == Ok(Normalize(m))
  {
    assert "data"[0] != "name"[0];
    if m.name != "" {
      var named := Default.(name := m.name);
      assert FromMembers(named, []) == Ok(named);
      if !Empty(m.data) {
        var ms := [("data", m.data), ("name", Str(m.name))];
        assert ms[1..] == [("name", Str(m.name))];
        assert FromMembers(Default.(data := m.data), ms[1..]) == Ok(m);
      }
    }
  }

  /** The JSON round trip is exact exactly for normalised models. */
  lemma JsonRoundTripExactIffNormal(m: WinCostModel)
    ensures FromJson(ToJson(m)) == Ok(m) <==> Normalize(m) == m
  {
    FromJsonToJson(m);
  }

  /** The binary store: a sequence of integers and strings. */
  datatype StoreItem = SInt(n: int) | SStr(s: string)

  const Version: int := 1

  /** `WinCostModel::serialize`: version 1, the name, the printed data. */
  function Serialize(m: WinCostModel, codec: Codec): (items: seq<StoreItem>)
    ensures |items| == 3 && items[0] == SInt(Version) && items[1] == SStr(m.name)
    ensures items[2].SStr? && (RoundTrips(codec, m.data) ==> codec.fromText(items[2].s) == Some(m.data))
  {
    [SInt(Version), SStr(m.name), SStr(codec.toText(m.data))]
  }

  datatype StoreError =
    | Truncated                  // the reader runs past the end or meets the wrong kind of item
    | ParseFailed(text: string)  // `Json::parse` rejects the text
    | WrongVersion(version: int) // "reconstituting wrong version"

  /** The version-1 payload: name and data text. Empty text leaves the data
      the object already had. */
  function ReadVersion1(self: WinCostModel, rest: seq<StoreItem>, codec: Codec)
    : (r: Result<(WinCostModel, seq<StoreItem>), StoreError>)
    ensures r.Ok? ==> |r.value.1| + 2 == |rest| && r.value.1 == rest[2..]
  {
    if |rest| < 2 || !rest[0].SStr? || !rest[1].SStr? then Err(Truncated)
    else
      var name := rest[0].s;
      var text := rest[1].s;
      if text == "" then Ok((self.(name := name), rest[2..]))
      else match codec.fromText(text)
        case None => Err(ParseFailed(text))
        case Some(data) => Ok((WinCostModel(name, data), rest[2..]))
  }

  /** `WinCostModel::reconstitute` as written: the exception for a wrong version
      is constructed but never thrown, so the object is left as it was and the
      rest of the record stays unread. */
  function ReconstituteAsWritten(self: WinCostModel, items: seq<StoreItem>, codec: Codec)
    : (r: Result<(WinCostModel, seq<StoreItem>), StoreError>)
    ensures |items| > 0 && items[0].SInt? && items[0].n != Version ==> r == Ok((self, items[1..]))
  {
    if |items| == 0 || !items[0].SInt? then Err(Truncated)
    else if items[0].n == Version then ReadVersion1(self, items[1..], codec)
    else Ok((self, items[1..]))
  }

  /** A record of another version is "read" successfully and changes nothing. */
  lemma WrongVersionSwallowed(self: WinCostModel, name: string, text: string, codec: Codec)
    ensures ReconstituteAsWritten(self, [SInt(2), SStr(name), SStr(text)], codec)
            == Ok((self, [SStr(name), SStr(text)]))
  {
  }

  /** `reconstitute` as intended: a wrong version is an error. */
  function Reconstitute(self: WinCostModel, items: seq<StoreItem>, codec: Codec)
    : (r: Result<(WinCostModel, seq<StoreItem>), StoreError>)
    ensures |items| > 0 && items[0].SInt? && items[0].n != Version ==> r == Err(WrongVersion(items[0].n))
    ensures r.Ok? ==> |items| >= 3 && r.value.1 == items[3..]
  {
    if |items| == 0 || !items[0].SInt? then Err(Truncated)
    else if items[0].n == Version then ReadVersion1(self, items[1..], codec)
    else Err(WrongVersion(items[0].n))
  }

  /** Reconstituting what was serialised gives the model back, consumes exactly
      its record, and does not depend on the object read into. */
  lemma ReconstituteSerialize(self: WinCostModel, m: WinCostModel, rest: seq<StoreItem>, codec: Codec)
    requires RoundTrips(codec, m.data)
    ensures Reconstitute(self, Serialize(m, codec) + rest, codec) == Ok((m, rest))
  {
    var items := Serialize(m, codec) + rest;
    assert items[1..][2..] == rest;
  }

  /** Both readers agree on every record of the current version. */
  lemma ReconstituteAgreesOnVersion1(self: WinCostModel, items: seq<StoreItem>, codec: Codec)
    requires |items| > 0 && items[0] == SInt(Version)
    ensures ReconstituteAsWritten(self, items, codec) == Reconstitute(self, items, codec)
  {
  }
}
