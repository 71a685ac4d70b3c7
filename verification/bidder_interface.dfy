/** `BidderInterface`: the router's channel to bidding agents, its name and
    wiring, and the factory registry `create` resolves a configured type
    through (library suffix "bidder"). */
module BidderInterface {
  import opened Wrappers
  import opened Json
  import opened Injection

  /** Stand-in for the router and agent-bridge pointers. */
  datatype Handle = Handle(id: nat)

  datatype BidderInterface = BidderInterface(
    serviceName: string,
    name: string,
    router: Option<Handle>,
    bridge: Option<Handle>)

  /** Both constructors: the router and the bridge start unset. */
  function New(serviceName: string): (b: BidderInterface)
    ensures b.serviceName == serviceName && b.router.None? && b.bridge.None?
  {
    BidderInterface(serviceName, "", None, None)
  }

  function SetInterfaceName(b: BidderInterface, name: string): (r: BidderInterface)
    ensures r.name == name
    ensures r.(name := b.name) == b
  {
    b.(name := name)
  }

  function InterfaceName(b: BidderInterface): string {
    b.name
  }

  /** Setting a name and reading it back gives that name. */
  lemma InterfaceNameRoundTrip(b: BidderInterface, name: string)
    ensures InterfaceName(SetInterfaceName(b, name)) == name
  {
  }

  /** `init(bridge, router)`: wires both, leaves everything else alone. */
  function Init(b: BidderInterface, bridge: Handle, router: Handle): (r: BidderInterface)
    ensures r.bridge == Some(bridge) && r.router == Some(router)
    ensures r.serviceName == b.serviceName && r.name == b.name
  {
    b.(router := Some(router), bridge := Some(bridge))
  }

  /** `BidderInterface::Factory`: builds an interface from a service name and
      the configuration (the service proxies are not modelled). */
  type Factory<!I> = (string, Json) -> I

  const LibSufix: string := "bidder"
  const ErrMsg: string := "bidder"

  /** `registerFactory` is `Injection.RegisterUnique` on the factory map. */

  datatype CreateError =
    | BadType(conversion: ConversionError)
    | FactoryMissing(lookup: LibError)
    | BadServiceName(conversion: ConversionError)

  /** The factory name a configuration asks for: its "type", "unknown" by default. */
  function TypeOf(config: Json): Result<string, ConversionError> {
    AsString(Get(config, "type", Str("unknown")))
  }

  /** The service name the new interface gets: the caller's, or else the
      configuration's "serviceName", "bidder" by default. */
  function ServiceNameFor(serviceName: string, config: Json): (r: Result<string, ConversionError>)
    ensures serviceName != "" ==> r == Ok(serviceName)
    ensures serviceName == "" && IsMember(config, "serviceName") ==> r == AsString(Member(config, "serviceName").value)
    ensures serviceName == "" && !IsMember(config, "serviceName") ==> r == Ok("bidder")
  {
    if serviceName != "" then Ok(serviceName)
    else AsString(Get(config, "serviceName", Str("bidder")))
  }

  /** `BidderInterface::create`: resolve the factory for the configured type
      through `getFactory`, then build with the service name. `getFactory`
      hands the static map to `getLibrary` by value, so only a type already
      registered resolves; on a miss the library "lib<type>_bidder.so" is
      loaded but the search after the load misses too. The type is resolved
      before the service name is read. */
  function Create<I>(serviceName: string, config: Json, factories: map<string, Factory<I>>,
                     load: string -> LoadOutcome<Factory<I>>): (r: Result<I, CreateError>)
    ensures TypeOf(config).Err? ==> r == Err(BadType(TypeOf(config).error))
    ensures TypeOf(config).Ok? && TypeOf(config).value !in factories ==> r.Err? && r.error.FactoryMissing?
    ensures TypeOf(config).Ok? && TypeOf(config).value in factories ==>
              (r.Ok? <==> ServiceNameFor(serviceName, config).Ok?)
    ensures r.Ok? ==>
              TypeOf(config).value in factories
              && r.value == factories[TypeOf(config).value](ServiceNameFor(serviceName, config).value, config)
  {
    var typeName :- TypeOf(config).MapFailure(e => BadType(e));
    var factory :- GetLibraryAsWritten(typeName, LibSufix, factories, load, ErrMsg).result.MapFailure(e => FactoryMissing(e));
    var name :- ServiceNameFor(serviceName, config).MapFailure(e => BadServiceName(e));
    Ok(factory(name, config))
  }

  /** A configuration naming a registered type, with the service name given,
      builds through that type's factory, as the corrected lookup would. */
  lemma CreateRegistered<I>(serviceName: string, typeName: string, rest: seq<(string, Json)>,
                            factories: map<string, Factory<I>>, load: string -> LoadOutcome<Factory<I>>)
    requires serviceName != "" && typeName in factories
    ensures var config := Obj([("type", Str(typeName))] + rest);
            Create(serviceName, config, factories, load) == Ok(factories[typeName](serviceName, config))
            && GetLibrary(typeName, LibSufix, factories, load, ErrMsg).result == Ok(factories[typeName])
  {
  }

  /** A type that only its library registers is not found on the first
      create, although the load registered it: "couldn't find bidder named". */
  lemma CreateLoadedTypeFails<I>(serviceName: string, typeName: string, f: Factory<I>,
                                 factories: map<string, Factory<I>>)
    requires typeName !in factories
    ensures var config := Obj([("type", Str(typeName))]);
            var load := (p: string) => Loaded([(typeName, f)]);
            Create(serviceName, config, factories, load) == Err(FactoryMissing(NotFound(ErrMsg, typeName)))
            && GetLibrary(typeName, LibSufix, factories, load, ErrMsg).result == Ok(f)
  {
    InstallOne(factories, typeName, f);
  }

  /** Without a caller-given name, the interface is named by the
      configuration's "serviceName" (members in jsoncpp's sorted order). */
  lemma CreateNamedByConfig<I>(name: string, typeName: string, factories: map<string, Factory<I>>,
                               load: string -> LoadOutcome<Factory<I>>)
    requires typeName in factories
    ensures var config := Obj([("serviceName", Str(name)), ("type", Str(typeName))]);
            Create("", config, factories, load) == Ok(factories[typeName](name, config))
  {
    var members := [("serviceName", Str(name)), ("type", Str(typeName))];
    assert "serviceName"[0] != "type"[0];
    assert Lookup(members, "type") == Lookup(members[1..], "type");
  }

  /** With no "type" and no "serviceName", the factory "unknown" is used and
      the interface is called "bidder". */
  lemma CreateDefaults<I>(factories: map<string, Factory<I>>, load: string -> LoadOutcome<Factory<I>>)
    requires "unknown" in factories
    ensures Create("", Obj([]), factories, load) == Ok(factories["unknown"]("bidder", Obj([])))
  {
  }
}
