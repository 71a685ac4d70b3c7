/** The test exchange sources: a `BidSource` that sends bid requests until its
    lifetime is used up (or forever), and the three factory registries that
    build bid, win and event sources from JSON configuration.

    Connecting, sending and reading on sockets are not modelled; the random
    key a source draws is a parameter, and an address is the configured URL.
    The registries are reached through getters bound by `std::bind` during
    this file's static initialisation, so each sees a snapshot. `Build` and
    the two `Create` functions take any bound getter; the getters the source
    actually binds copy the registries while they are still empty
    (`BidGetterAtStartup`), and `CreateBidSourceLive` and
    `CreateAdserverSourceLive` are the creations over the live registries. */
module ExchangeSource {
  import opened Wrappers
  import opened Json
  import opened Injection
  import Loader

  datatype BidSource = BidSource(
    address: string,
    bidForever: bool,
    bidCount: int,
    bidLifetime: int,
    key: int)

  /** `BidSource(address)`: bids forever. */
  function Forever(address: string, key: int): (s: BidSource)
    ensures s.bidForever && s.bidCount == 0
  {
    BidSource(address, true, 0, 0, key)
  }

  /** `BidSource(address, lifetime)`: bids `lifetime` times. */
  function WithLifetime(address: string, lifetime: int, key: int): (s: BidSource)
    ensures !s.bidForever && s.bidCount == 0 && s.bidLifetime == lifetime
  {
    BidSource(address, false, 0, lifetime, key)
  }

  datatype ConfigError = BadUrl(url: ConversionError) | BadLifetime(lifetime: ConversionError)

  /** `BidSource(json)`: "url" is the address; a "lifetime" member, read as a
      32-bit integer, makes the source finite. */
  function FromJson(config: Json, key: int): (r: Result<BidSource, ConfigError>)
    ensures r.Ok? ==> AsString(At(config, "url")) == Ok(r.value.address) && r.value.bidCount == 0
    ensures r.Ok? ==> (r.value.bidForever <==> !IsMember(config, "lifetime"))
    ensures r.Ok? && IsMember(config, "lifetime") ==> AsInt(At(config, "lifetime")) == Ok(r.value.bidLifetime)
    ensures AsString(At(config, "url")).Ok? && !IsMember(config, "lifetime") ==>
              r == Ok(Forever(AsString(At(config, "url")).value, key))
  {
    var url :- AsString(At(config, "url")).MapFailure(e => BadUrl(e));
    if IsMember(config, "lifetime") then
      var lifetime :- AsInt(At(config, "lifetime")).MapFailure(e => BadLifetime(e));
      Ok(WithLifetime(url, lifetime, key))
    else Ok(Forever(url, key))
  }

  /** `isDone`: a finite source is done once it has sent its lifetime's worth. */
  predicate IsDone(s: BidSource) {
    if s.bidForever then false else s.bidLifetime <= s.bidCount
  }

  /** `sendBidRequest`: counts one more request (the random request itself is
      not modelled). */
  function SendBidRequest(s: BidSource): (r: BidSource)
    ensures r.bidCount == s.bidCount + 1
    ensures r.(bidCount := s.bidCount) == s
  {
    s.(bidCount := s.bidCount + 1)
  }

  /** A source that bids forever is never done, however much it sends. */
  lemma ForeverNeverDone(s: BidSource)
    requires s.bidForever
    ensures !IsDone(s) && !IsDone(SendBidRequest(s))
  {
  }

  /** The driver loop of a test: send until done. Only a finite source stops. */
  method SendUntilDone(s: BidSource) returns (sent: nat, last: BidSource)
    requires !s.bidForever
    ensures IsDone(last)
    ensures sent == if s.bidLifetime <= s.bidCount then 0 else s.bidLifetime - s.bidCount
    ensures last == s.(bidCount := s.bidCount + sent)
  {
    sent := 0;
    last := s;
    while !IsDone(last)
      invariant last == s.(bidCount := s.bidCount + sent)
      invariant s.bidLifetime > s.bidCount ==> sent <= s.bidLifetime - s.bidCount
      invariant s.bidLifetime <= s.bidCount ==> sent == 0
      decreases s.bidLifetime - last.bidCount
    {
      last := SendBidRequest(last);
      sent := sent + 1;
    }
  }

  /** A source built with lifetime n is done after exactly n requests. */
  lemma {:induction false} LifetimeExhausted(address: string, n: nat, key: int, k: nat)
    ensures IsDone(Sent(WithLifetime(address, n, key), k)) <==> k >= n
  {
    SentCount(WithLifetime(address, n, key), k);
  }

  /** The source after `k` requests. */
  function Sent(s: BidSource, k: nat): BidSource {
    if k == 0 then s else SendBidRequest(Sent(s, k - 1))
  }

  lemma {:induction false} SentCount(s: BidSource, k: nat)
    ensures Sent(s, k) == s.(bidCount := s.bidCount + k)
  {
    if k > 0 {
      SentCount(s, k - 1);
    }
  }

  /** The factories: each builds a source from its JSON configuration. */
  type Factory<!S> = Json -> S

  const BidSufix: string := "bid request"
  const AdserverSufix: string := "adserver"

  /** The three registration functions are `Injection.RegisterUnique`, each
      on its own factory map. */

  datatype CreateError = BadType(conversion: ConversionError) | FactoryMissing(lookup: LibError)

  /** The factory name a configuration asks for: its "type", "unknown" by default. */
  function TypeOf(config: Json): Result<string, ConversionError> {
    AsString(Get(config, "type", Str("unknown")))
  }

  /** Resolve the configured type through a bound getter and build. */
  function Build<S>(config: Json, getter: BoundGetter<Factory<S>>, load: string -> LoadOutcome<Factory<S>>)
    : (r: Result<S, CreateError>)
    ensures r.Ok? <==> TypeOf(config).Ok? && TypeOf(config).value in getter.snapshot
    ensures r.Ok? ==> r.value == getter.snapshot[TypeOf(config).value](config)
  {
    var typeName :- TypeOf(config).MapFailure(e => BadType(e));
    var factory :- getter.Call(typeName, load).result.MapFailure(e => FactoryMissing(e));
    Ok(factory(config))
  }

  /** `createBidSource`: always resolves a factory; there is no "none". */
  function CreateBidSource<S>(config: Json, getBidFactory: BoundGetter<Factory<S>>,
                              load: string -> LoadOutcome<Factory<S>>): (r: Result<S, CreateError>)
    ensures r.Ok? <==> TypeOf(config).Ok? && TypeOf(config).value in getBidFactory.snapshot
  {
    Build(config, getBidFactory, load)
  }

  /** `createWinSource` and `createEventSource`, each applied to its own
      registry's getter (both registries load from "adserver" libraries):
      type "none" gives no source without any lookup. */
  function CreateAdserverSource<S>(config: Json, getFactory: BoundGetter<Factory<S>>,
                                   load: string -> LoadOutcome<Factory<S>>): (r: Result<Option<S>, CreateError>)
    ensures TypeOf(config) == Ok("none") ==> r == Ok(None)
    ensures TypeOf(config) != Ok("none") ==>
              (r.Ok? <==> TypeOf(config).Ok? && TypeOf(config).value in getFactory.snapshot)
    ensures r.Ok? && r.value.Some? ==> r.value.value == getFactory.snapshot[TypeOf(config).value](config)
  {
    var typeName :- TypeOf(config).MapFailure(e => BadType(e));
    if typeName == "none" then Ok(None)
    else
      var source :- Build(config, getFactory, load);
      Ok(Some(source))
  }

  /** The getters the source binds. The three factory maps are defined empty
      just before them in the same file, and `std::bind` copies each map when
      the getter is initialised, before any library can register a factory. */
  function BidGetterAtStartup<S>(): (g: BoundGetter<Factory<S>>)
    ensures g.snapshot == map[] && g.libSufix == BidSufix
  {
    Bind(BidSufix, map[], "bid source")
  }

  function WinGetterAtStartup<S>(): (g: BoundGetter<Factory<S>>)
    ensures g.snapshot == map[] && g.libSufix == AdserverSufix
  {
    Bind(AdserverSufix, map[], "win source")
  }

  function EventGetterAtStartup<S>(): (g: BoundGetter<Factory<S>>)
    ensures g.snapshot == map[] && g.libSufix == AdserverSufix
  {
    Bind(AdserverSufix, map[], "event source")
  }

  /** With the getter as built, no bid source is ever created. A type that
      reads is missed in the empty copy and its library is loaded, but what
      that library registers never reaches the copy. */
  lemma BidSourcesNeverCreated<S>(config: Json, load: string -> LoadOutcome<Factory<S>>)
    ensures CreateBidSource(config, BidGetterAtStartup(), load).Err?
    ensures TypeOf(config).Ok? ==>
              BidGetterAtStartup<S>().Call(TypeOf(config).value, load).loads == [Loader.LibPath(TypeOf(config).value, BidSufix)]
  {
  }

  /** With the getters as built, a win or event source is created exactly
      when its type is "none", and then there is no source. */
  lemma AdserverSourcesOnlyNone<S>(config: Json, load: string -> LoadOutcome<Factory<S>>)
    ensures CreateAdserverSource(config, WinGetterAtStartup(), load).Ok? <==> TypeOf(config) == Ok("none")
    ensures CreateAdserverSource(config, EventGetterAtStartup(), load).Ok? <==> TypeOf(config) == Ok("none")
    ensures CreateAdserverSource(config, WinGetterAtStartup(), load).Ok? ==>
              CreateAdserverSource(config, WinGetterAtStartup(), load).value.None?
  {
  }

  /** `Build` as intended: the type is resolved by `Injection.GetLibrary` in
      the live registry, whose second lookup sees what the load registered. */
  function BuildLive<S>(config: Json, libSufix: string, registry: map<string, Factory<S>>,
                        load: string -> LoadOutcome<Factory<S>>, errMsg: string): (r: Result<S, CreateError>)
    ensures r.Ok? <==> TypeOf(config).Ok? && GetLibrary(TypeOf(config).value, libSufix, registry, load, errMsg).result.Ok?
    ensures r.Ok? ==> r.value == GetLibrary(TypeOf(config).value, libSufix, registry, load, errMsg).result.value(config)
    ensures TypeOf(config).Ok? && TypeOf(config).value in registry ==> r == Ok(registry[TypeOf(config).value](config))
  {
    var typeName :- TypeOf(config).MapFailure(e => BadType(e));
    var factory :- GetLibrary(typeName, libSufix, registry, load, errMsg).result.MapFailure(e => FactoryMissing(e));
    Ok(factory(config))
  }

  /** `createBidSource` over the live bid-factory registry. */
  function CreateBidSourceLive<S>(config: Json, bidFactories: map<string, Factory<S>>,
                                  load: string -> LoadOutcome<Factory<S>>): (r: Result<S, CreateError>)
    ensures r.Ok? <==> TypeOf(config).Ok? && GetLibrary(TypeOf(config).value, BidSufix, bidFactories, load, "bid source").result.Ok?
    ensures TypeOf(config).Ok? && TypeOf(config).value in bidFactories ==>
              r == Ok(bidFactories[TypeOf(config).value](config))
  {
    BuildLive(config, BidSufix, bidFactories, load, "bid source")
  }

  /** `createWinSource` and `createEventSource` over their live registries. */
  function CreateAdserverSourceLive<S>(config: Json, factories: map<string, Factory<S>>,
                                       load: string -> LoadOutcome<Factory<S>>, errMsg: string)
    : (r: Result<Option<S>, CreateError>)
    ensures TypeOf(config) == Ok("none") ==> r == Ok(None)
    ensures TypeOf(config) != Ok("none") ==>
              (r.Ok? <==> TypeOf(config).Ok? && GetLibrary(TypeOf(config).value, AdserverSufix, factories, load, errMsg).result.Ok?)
    ensures TypeOf(config).Ok? && TypeOf(config).value != "none" && TypeOf(config).value in factories ==>
              r == Ok(Some(factories[TypeOf(config).value](config)))
  {
    var typeName :- TypeOf(config).MapFailure(e => BadType(e));
    if typeName == "none" then Ok(None)
    else
      var source :- BuildLive(config, AdserverSufix, factories, load, errMsg);
      Ok(Some(source))
  }

  /** The live creations agree with the bound ones wherever a bound getter
      over the same registry succeeds. */
  lemma LiveAgreesWithBound<S>(config: Json, registry: map<string, Factory<S>>,
                               load: string -> LoadOutcome<Factory<S>>, errMsg: string)
    ensures CreateBidSource(config, Bind(BidSufix, registry, "bid source"), load).Ok? ==>
              CreateBidSourceLive(config, registry, load) == CreateBidSource(config, Bind(BidSufix, registry, "bid source"), load)
    ensures CreateAdserverSource(config, Bind(AdserverSufix, registry, errMsg), load).Ok? ==>
              CreateAdserverSourceLive(config, registry, load, errMsg)
              == CreateAdserverSource(config, Bind(AdserverSufix, registry, errMsg), load)
  {
  }

  /** A factory that a library registers when its type is first asked for
      builds the source on that first call over the live registry; the getter
      the source binds misses it. */
  lemma LoadedFactoryBuilds<S>(config: Json, name: string, factory: Factory<S>,
                               registry: map<string, Factory<S>>)
    requires TypeOf(config) == Ok(name) && name != "none" && name !in registry
    ensures var load := (p: string) => Loaded([(name, factory)]);
            CreateBidSourceLive(config, registry, load) == Ok(factory(config))
            && CreateAdserverSourceLive(config, registry, load, "win source") == Ok(Some(factory(config)))
            && CreateBidSource(config, BidGetterAtStartup(), load).Err?
            && CreateAdserverSource(config, WinGetterAtStartup(), load).Err?
  {
  }

  /** A bid source of type "none" is looked up like any other type, in the
      library "libnone_bid request.so"; win and event sources of that type are
      simply absent. */
  lemma NoneTypeOnlyForWinAndEvent<S>(getter: BoundGetter<Factory<S>>, load: string -> LoadOutcome<Factory<S>>)
    requires getter.libSufix == BidSufix && "none" !in getter.snapshot
    ensures var config := Obj([("type", Str("none"))]);
            CreateBidSource(config, getter, load).Err?
            && getter.Call("none", load).loads == ["libnone_bid request.so"]
            && CreateAdserverSource(config, getter, load) == Ok(None)
  {
    assert Loader.LibPath("none", BidSufix) == "libnone_bid request.so";
  }
}
