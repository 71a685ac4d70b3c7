/** `HttpBidderInterface`: the bidder interface that forwards auctions to an
    external HTTP bidder as OpenRTB requests and turns the OpenRTB response
    back into router bids.

    Modelled: configuration, request preparation (tagging each impression with
    the external ids of the agents bidding on it, and shortening `tmax` by the
    processing time), the handling of the bidder's reply, win and campaign
    event notifications to the ad server, ping replies, and the "http"
    registration. HTTP transport, the router, OpenRTB (de)serialisation and the
    exchange's win cost model are parameters. */
module HttpBidderInterface {
  import opened Wrappers
  import opened Json
  import opened Text
  import WinCostModel
  import BidderInterface
  import Injection

  /** `HttpClientError`: the five codes the source names, and any other. */
  datatype HttpClientError = NONE | UNKNOWN | TIMEOUT | HOST_NOT_FOUND | COULD_NOT_CONNECT | OtherCode(code: int)

  /** `httpErrorString`: the name of a known code; any other code fails the
      "Invalid code path" check. */
  function HttpErrorString(code: HttpClientError): (r: Result<string, string>)
    ensures r.Err? <==> code.OtherCode?
    ensures r.Err? ==> r.error == "Invalid code path"
    ensures r.Ok? ==> StartsWith(r.value, "HttpClientError::")
  {
    match code
    case NONE => Ok("HttpClientError::NONE")
    case UNKNOWN => Ok("HttpClientError::UNKNOWN")
    case TIMEOUT => Ok("HttpClientError::TIMEOUT")
    case HOST_NOT_FOUND => Ok("HttpClientError::HOST_NOT_FOUND")
    case COULD_NOT_CONNECT => Ok("HttpClientError::COULD_NOT_CONNECT")
    case OtherCode(_) => Err("Invalid code path")
  }

  /** Different known codes have different names. */
  lemma HttpErrorStringInjective(a: HttpClientError, b: HttpClientError)
    requires HttpErrorString(a).Ok? && HttpErrorString(a) == HttpErrorString(b)
    ensures a == b
  {
    var pre := "HttpClientError::";
    assert "HttpClientError::NONE"[|pre|] == 'N';
    assert "HttpClientError::UNKNOWN"[|pre|] == 'U';
    assert "HttpClientError::TIMEOUT"[|pre|] == 'T';
    assert "HttpClientError::HOST_NOT_FOUND"[|pre|] == 'H';
    assert "HttpClientError::COULD_NOT_CONNECT"[|pre|] == 'C';
  }

  datatype HttpConfig = HttpConfig(routerHost: string, routerPath: string, adserverHost: string,
                                   adserverWinPort: int, adserverEventPort: int)

  datatype ConfigError = InvalidConfiguration   // "configuration file is invalid"

  /** The constructor's configuration: "router" {"host", "path"} and
      "adserver" {"host", "winPort", "eventPort"}; any conversion failure is
      reported as an invalid configuration. */
  function ParseConfig(config: Json): (r: Result<HttpConfig, ConfigError>)
    ensures r.Ok? ==> AsString(At(At(config, "router"), "host")) == Ok(r.value.routerHost)
                      && AsString(At(At(config, "router"), "path")) == Ok(r.value.routerPath)
                      && AsString(At(At(config, "adserver"), "host")) == Ok(r.value.adserverHost)
                      && AsInt(At(At(config, "adserver"), "winPort")) == Ok(r.value.adserverWinPort)
                      && AsInt(At(At(config, "adserver"), "eventPort")) == Ok(r.value.adserverEventPort)
    ensures AsString(At(At(config, "router"), "host")).Err? ==> r == Err(InvalidConfiguration)
    ensures r.Err? ==> r == Err(InvalidConfiguration)
    ensures r.Ok? <==> AsString(At(At(config, "router"), "host")).Ok?
                       && AsString(At(At(config, "router"), "path")).Ok?
                       && AsString(At(At(config, "adserver"), "host")).Ok?
                       && AsInt(At(At(config, "adserver"), "winPort")).Ok?
                       && AsInt(At(At(config, "adserver"), "eventPort")).Ok?
  {
    var router := At(config, "router");
    var adserver := At(config, "adserver");
    var routerHost :- AsString(At(router, "host")).MapFailure(_ => InvalidConfiguration);
    var routerPath :- AsString(At(router, "path")).MapFailure(_ => InvalidConfiguration);
    var adserverHost :- AsString(At(adserver, "host")).MapFailure(_ => InvalidConfiguration);
    var winPort :- AsInt(At(adserver, "winPort")).MapFailure(_ => InvalidConfiguration);
    var eventPort :- AsInt(At(adserver, "eventPort")).MapFailure(_ => InvalidConfiguration);
    Ok(HttpConfig(routerHost, routerPath, adserverHost, winPort, eventPort))
  }

  /** The configuration document a deployment would write for `c`. */
  function ConfigJson(c: HttpConfig): Json {
    Obj([("adserver", Obj([("eventPort", Int(c.adserverEventPort)), ("host", Str(c.adserverHost)),
                           ("winPort", Int(c.adserverWinPort))])),
         ("router", Obj([("host", Str(c.routerHost)), ("path", Str(c.routerPath))]))])
  }

  /** Every configuration with 32-bit ports is read back from its document. */
  lemma ParseConfigJson(c: HttpConfig)
    requires MinInt32 <= c.adserverWinPort <= MaxInt32 && MinInt32 <= c.adserverEventPort <= MaxInt32
    ensures ParseConfig(ConfigJson(c)) == Ok(c)
  {
    var j := ConfigJson(c);
    ConfigJsonRouter(c);
    ConfigJsonAdserver(c);
    var router := At(j, "router");
    var adserver := At(j, "adserver");
    assert AsString(At(router, "host")) == Ok(c.routerHost);
    assert AsString(At(router, "path")) == Ok(c.routerPath);
    assert AsString(At(adserver, "host")) == Ok(c.adserverHost);
    assert AsInt(At(adserver, "winPort")) == Ok(c.adserverWinPort);
    assert AsInt(At(adserver, "eventPort")) == Ok(c.adserverEventPort);
  }

  lemma ConfigJsonRouter(c: HttpConfig)
    ensures var router := At(ConfigJson(c), "router");
            At(router, "host") == Str(c.routerHost) && At(router, "path") == Str(c.routerPath)
  {
    var j := ConfigJson(c);
    var router := j.members[1].1;
    assert "router"[0] != "adserver"[0];
    LookupAt(j.members, 1);
    assert "path"[0] != "host"[0];
    LookupAt(router.members, 0);
    LookupAt(router.members, 1);
  }

  lemma ConfigJsonAdserver(c: HttpConfig)
    ensures var adserver := At(ConfigJson(c), "adserver");
            At(adserver, "host") == Str(c.adserverHost)
            && At(adserver, "winPort") == Int(c.adserverWinPort)
            && At(adserver, "eventPort") == Int(c.adserverEventPort)
  {
    var j := ConfigJson(c);
    var adserver := j.members[0].1;
    LookupAt(j.members, 0);
    assert "eventPort"[0] != "host"[0] && "eventPort"[0] != "winPort"[0] && "host"[0] != "winPort"[0];
    LookupAt(adserver.members, 0);
    LookupAt(adserver.members, 1);
    LookupAt(adserver.members, 2);
  }

  /** The ad-server endpoints: host, a colon, the port in decimal. */
  function WinHost(c: HttpConfig): string {
    c.adserverHost + ":" + IntToString(c.adserverWinPort)
  }

  function EventHost(c: HttpConfig): string {
    c.adserverHost + ":" + IntToString(c.adserverEventPort)
  }

  /** Wins and campaign events go to different endpoints exactly when the
      configured ports differ. */
  lemma EndpointsDiffer(c: HttpConfig)
    ensures WinHost(c) != EventHost(c) <==> c.adserverWinPort != c.adserverEventPort
  {
    var pre := c.adserverHost + ":";
    if WinHost(c) == EventHost(c) {
      assert WinHost(c)[|pre|..] == IntToString(c.adserverWinPort);
      assert EventHost(c)[|pre|..] == IntToString(c.adserverEventPort);
      IntToStringInjective(c.adserverWinPort, c.adserverEventPort);
    }
  }

  /** The interface itself: its `BidderInterface` base and its configuration. */
  datatype HttpBidderInterface = HttpBidderInterface(base: BidderInterface.BidderInterface, config: HttpConfig)

  /** The factory registered under "http". */
  function HttpFactory(serviceName: string, config: Json): (r: Result<HttpBidderInterface, ConfigError>)
    ensures r.Ok? ==> r.value.base == BidderInterface.New(serviceName) && ParseConfig(config) == Ok(r.value.config)
  {
    var c :- ParseConfig(config);
    Ok(HttpBidderInterface(BidderInterface.New(serviceName), c))
  }

  /** Once registered, a configuration of type "http" is built by the HTTP factory. */
  lemma HttpRegistration(factories: map<string, BidderInterface.Factory<Result<HttpBidderInterface, ConfigError>>>,
                         serviceName: string, rest: seq<(string, Json)>,
                         load: string -> Injection.LoadOutcome<BidderInterface.Factory<Result<HttpBidderInterface, ConfigError>>>)
    requires "http" !in factories && serviceName != ""
    ensures Injection.RegisterUnique(factories, "http", HttpFactory).Ok?
    ensures var registered := Injection.RegisterUnique(factories, "http", HttpFactory).value;
            var config := Obj([("type", Str("http"))] + rest);
            BidderInterface.Create(serviceName, config, registered, load) == Ok(HttpFactory(serviceName, config))
  {
    var registered := Injection.RegisterUnique(factories, "http", HttpFactory).value;
    BidderInterface.CreateRegistered(serviceName, "http", rest, registered, load);
  }

  /** An agent's configuration, as far as this interface reads it. */
  datatype AgentConfig = AgentConfig(externalId: nat, creativeIds: seq<int>)

  /** What the router tells the interface about one bidding agent: its
      configuration and the impressions (spot indexes) it bids on. */
  datatype BidInfo = BidInfo(agentConfig: AgentConfig, spots: seq<int>)

  /** An OpenRTB impression: its id and its "external-ids" extension. */
  datatype Imp = Imp(id: string, externalIds: seq<nat>)

  datatype TagError = AdSpotIndexOutOfRange   // "adSpotIndex out of range"

  /** The external ids a list of spots adds to impression `i`: one per
      occurrence of `i`. */
  function SpotTags(externalId: nat, spots: seq<int>, i: int): seq<nat> {
    if |spots| == 0 then []
    else (if spots[0] == i then [externalId] else []) + SpotTags(externalId, spots[1..], i)
  }

  /** The external ids impression `i` collects from all bidders, in order. */
  function TagsAt(bidders: seq<(string, BidInfo)>, i: int): seq<nat> {
    if |bidders| == 0 then []
    else SpotTags(bidders[0].1.agentConfig.externalId, bidders[0].1.spots, i) + TagsAt(bidders[1..], i)
  }

  predicate SpotsInRange(spots: seq<int>, n: nat) {
    forall j :: 0 <= j < |spots| ==> 0 <= spots[j] < n
  }

  predicate AllSpotsInRange(bidders: seq<(string, BidInfo)>, n: nat) {
    forall b :: 0 <= b < |bidders| ==> SpotsInRange(bidders[b].1.spots, n)
  }

  /** The inner loop of `tagRequest`: append the agent's external id to each
      of its spots; a spot out of range fails the check. */
  function TagSpots(imps: seq<Imp>, externalId: nat, spots: seq<int>): (r: Result<seq<Imp>, TagError>)
    ensures r.Ok? ==> |r.value| == |imps| && forall i :: 0 <= i < |imps| ==> r.value[i].id == imps[i].id
    ensures |spots| > 0 && !(0 <= spots[0] < |imps|) ==> r == Err(AdSpotIndexOutOfRange)
    decreases |spots|
  {
    if |spots| == 0 then Ok(imps)
    else if !(0 <= spots[0] < |imps|) then Err(AdSpotIndexOutOfRange)
    else
      var imp := imps[spots[0]];
      TagSpots(imps[spots[0] := Imp(imp.id, imp.externalIds + [externalId])], externalId, spots[1..])
  }

  /** `tagRequest`: every bidder, in the router's order. */
  function TagRequest(imps: seq<Imp>, bidders: seq<(string, BidInfo)>): (r: Result<seq<Imp>, TagError>)
    ensures r.Ok? ==> |r.value| == |imps| && forall i :: 0 <= i < |imps| ==> r.value[i].id == imps[i].id
    ensures |bidders| > 0 && TagSpots(imps, bidders[0].1.agentConfig.externalId, bidders[0].1.spots).Err? ==>
              r == Err(AdSpotIndexOutOfRange)
    decreases |bidders|
  {
    if |bidders| == 0 then Ok(imps)
    else
      match TagSpots(imps, bidders[0].1.agentConfig.externalId, bidders[0].1.spots)
      case Err(_) => Err(AdSpotIndexOutOfRange)
      case Ok(tagged) => TagRequest(tagged, bidders[1..])
  }

  lemma {:induction false} TagSpotsSpec(imps: seq<Imp>, externalId: nat, spots: seq<int>)
    ensures TagSpots(imps, externalId, spots).Ok? <==> SpotsInRange(spots, |imps|)
    ensures TagSpots(imps, externalId, spots).Ok? ==>
              var r := TagSpots(imps, externalId, spots).value;
              |r| == |imps| && forall i :: 0 <= i < |imps| ==>
                r[i] == Imp(imps[i].id, imps[i].externalIds + SpotTags(externalId, spots, i))
    decreases |spots|
  {
    if |spots| > 0 && 0 <= spots[0] < |imps| {
      var imp := imps[spots[0]];
      var imps1 := imps[spots[0] := Imp(imp.id, imp.externalIds + [externalId])];
      TagSpotsSpec(imps1, externalId, spots[1..]);
      assert SpotsInRange(spots, |imps|) <==> SpotsInRange(spots[1..], |imps|) by {
        if SpotsInRange(spots[1..], |imps|) {
          forall j | 0 <= j < |spots| ensures 0 <= spots[j] < |imps| {
            if j > 0 { assert spots[j] == spots[1..][j - 1]; }
          }
        }
      }
      if TagSpots(imps, externalId, spots).Ok? {
        var r := TagSpots(imps, externalId, spots).value;
        forall i | 0 <= i < |imps|
          ensures r[i] == Imp(imps[i].id, imps[i].externalIds + SpotTags(externalId, spots, i))
        {
          if i == spots[0] {
            assert imps1[i].externalIds + SpotTags(externalId, spots[1..], i)
                   == imps[i].externalIds + ([externalId] + SpotTags(externalId, spots[1..], i));
          } else {
            assert SpotTags(externalId, spots, i) == SpotTags(externalId, spots[1..], i);
          }
        }
      }
    } else if |spots| == 0 {
      forall i | 0 <= i < |imps| ensures imps[i] == Imp(imps[i].id, imps[i].externalIds + SpotTags(externalId, spots, i)) {
        assert imps[i].externalIds + [] == imps[i].externalIds;
      }
    }
  }

  /** The first bidder's tags, then the rest's, are all the tags. */
  lemma TagsCompose(imp: Imp, tagged: Imp, r: Imp, bidders: seq<(string, BidInfo)>, i: int)
    requires |bidders| > 0
    requires tagged == Imp(imp.id, imp.externalIds + SpotTags(bidders[0].1.agentConfig.externalId, bidders[0].1.spots, i))
    requires r == Imp(tagged.id, tagged.externalIds + TagsAt(bidders[1..], i))
    ensures r == Imp(imp.id, imp.externalIds + TagsAt(bidders, i))
  {
    var tags := SpotTags(bidders[0].1.agentConfig.externalId, bidders[0].1.spots, i);
    assert (imp.externalIds + tags) + TagsAt(bidders[1..], i) == imp.externalIds + (tags + TagsAt(bidders[1..], i));
  }

  /** The first bidder's spots in range, and the rest's. */
  lemma AllSpotsInRangeSplit(bidders: seq<(string, BidInfo)>, n: nat)
    requires |bidders| > 0
    ensures AllSpotsInRange(bidders, n) <==> SpotsInRange(bidders[0].1.spots, n) && AllSpotsInRange(bidders[1..], n)
  {
    if SpotsInRange(bidders[0].1.spots, n) && AllSpotsInRange(bidders[1..], n) {
      forall b | 0 <= b < |bidders| ensures SpotsInRange(bidders[b].1.spots, n) {
        if b > 0 { assert bidders[b] == bidders[1..][b - 1]; }
      }
    }
  }

  /** `tagRequest` succeeds exactly when every spot index is in range, and then
      each impression carries, after its own ids, the external id of every
      agent bidding on it, once per bid, in the router's order. */
  lemma {:induction false} TagRequestSpec(imps: seq<Imp>, bidders: seq<(string, BidInfo)>)
    ensures TagRequest(imps, bidders).Ok? <==> AllSpotsInRange(bidders, |imps|)
    ensures TagRequest(imps, bidders).Ok? ==>
              var r := TagRequest(imps, bidders).value;
              |r| == |imps| && forall i :: 0 <= i < |imps| ==>
                r[i] == Imp(imps[i].id, imps[i].externalIds + TagsAt(bidders, i))
    decreases |bidders|
  {
    if |bidders| == 0 {
      forall i | 0 <= i < |imps| ensures imps[i] == Imp(imps[i].id, imps[i].externalIds + TagsAt(bidders, i)) {
        assert imps[i].externalIds + [] == imps[i].externalIds;
      }
    } else {
      var x := bidders[0].1.agentConfig.externalId;
      var spots := bidders[0].1.spots;
      TagSpotsSpec(imps, x, spots);
      AllSpotsInRangeSplit(bidders, |imps|);
      if TagSpots(imps, x, spots).Ok? {
        var tagged := TagSpots(imps, x, spots).value;
        assert TagRequest(imps, bidders) == TagRequest(tagged, bidders[1..]);
        TagRequestSpec(tagged, bidders[1..]);
        if TagRequest(tagged, bidders[1..]).Ok? {
          var r := TagRequest(tagged, bidders[1..]).value;
          forall i | 0 <= i < |imps|
            ensures r[i] == Imp(imps[i].id, imps[i].externalIds + TagsAt(bidders, i))
          {
            TagsCompose(imps[i], tagged[i], r[i], bidders, i);
          }
        }
      }
    }
  }

  /** An OpenRTB request as far as this interface touches it. */
  datatype OpenRtbRequest = OpenRtbRequest(imps: seq<Imp>, tmax: int)

  datatype Prepared = TooLate | Ready(request: OpenRtbRequest) | PrepareFailed(reason: string)

  /** `prepareRequest`: tag the impressions, then take the processing time
      (already rounded to milliseconds) off `tmax`. A request with no time
      left is not sent; a negative processing time fails the
      "Wrong tmax calculation" check. */
  function PrepareRequest(request: OpenRtbRequest, bidders: seq<(string, BidInfo)>, processingMs: int): (r: Prepared)
    ensures r.Ready? ==> 0 < r.request.tmax <= request.tmax
                         && r.request.tmax == request.tmax - processingMs
                         && TagRequest(request.imps, bidders) == Ok(r.request.imps)
    ensures TagRequest(request.imps, bidders).Err? ==> r == PrepareFailed("adSpotIndex out of range")
    ensures TagRequest(request.imps, bidders).Ok? && request.tmax - processingMs <= 0 ==> r == TooLate
    ensures TagRequest(request.imps, bidders).Ok? && request.tmax - processingMs > 0 ==>
              (r.Ready? <==> processingMs >= 0)
  {
    match TagRequest(request.imps, bidders)
    case Err(_) => PrepareFailed("adSpotIndex out of range")
    case Ok(tagged) =>
      var oldTmax := request.tmax;
      var newTmax := oldTmax - processingMs;
      if newTmax <= 0 then TooLate
      else if !(newTmax <= oldTmax) then PrepareFailed("Wrong tmax calculation")
      else Ready(OpenRtbRequest(tagged, newTmax))
  }

  /** One bid of the bidder's OpenRTB response. */
  datatype ResponseBid = ResponseBid(ext: Json, crid: int, priceCpm: int, impid: string)

  /** The router's bid built from it. */
  datatype RouterBid = RouterBid(creativeIndex: nat, priceCpm: int, priority: int, spotIndex: nat)

  datatype ResponseError =
    | RequestFailed(host: string, code: string)   // "Error requesting <host>: <code>"
    | InvalidErrorCode                            // a code `httpErrorString` does not know
    | Unparsable(body: string)
    | MissingExternalId                           // "Missing external-id ext field in BidResponse"
    | BadExternalId(e: ConversionError)
    | UnknownExternalId(externalId: nat)          // "Couldn't find config for externalId: <id>"
    | UnknownCreative(crid: int)                  // "Unknown creative id: <crid>"
    | UnknownImpression(impid: string)            // "Unknown impression id: <impid>"

  /** `findAgent`: the first bidder whose agent the router has configured with
      this external id, with the configuration the bidder carries. */
  function FindAgent(bidders: seq<(string, BidInfo)>, routerExternalIds: map<string, nat>, externalId: nat)
    : (r: Option<(string, AgentConfig)>)
    requires forall b :: 0 <= b < |bidders| ==> bidders[b].0 in routerExternalIds
    ensures r.Some? <==> exists b :: 0 <= b < |bidders| && routerExternalIds[bidders[b].0] == externalId
    ensures r.Some? ==> exists b :: 0 <= b < |bidders| && routerExternalIds[bidders[b].0] == externalId
                                    && r.value == (bidders[b].0, bidders[b].1.agentConfig)
                                    && forall c :: 0 <= c < b ==> routerExternalIds[bidders[c].0] != externalId
  {
    if |bidders| == 0 then None
    else if routerExternalIds[bidders[0].0] == externalId then Some((bidders[0].0, bidders[0].1.agentConfig))
    else
      var r := FindAgent(bidders[1..], routerExternalIds, externalId);
      if r.Some? then
        var b' :| 0 <= b' < |bidders[1..]| && routerExternalIds[bidders[1..][b'].0] == externalId
                   && r.value == (bidders[1..][b'].0, bidders[1..][b'].1.agentConfig)
                   && forall c :: 0 <= c < b' ==> routerExternalIds[bidders[1..][c].0] != externalId;
        assert bidders[b' + 1] == bidders[1..][b'];
        assert forall c :: 1 <= c < b' + 1 ==> bidders[c] == bidders[1..][c - 1];
        r
      else
        assert forall b :: 1 <= b < |bidders| ==> bidders[b] == bidders[1..][b - 1];
        r
  }

  /** The first position whose value is `x`, or -1 (`indexOf`). */
  function IndexOf<T(==)>(s: seq<T>, x: T): (i: int)
    ensures -1 <= i < |s|
    ensures i >= 0 ==> s[i] == x && forall j :: 0 <= j < i ==> s[j] != x
    ensures i == -1 ==> forall j :: 0 <= j < |s| ==> s[j] != x
  {
    if |s| == 0 then -1
    else if s[0] == x then 0
    else
      var k := IndexOf(s[1..], x);
      if k == -1 then -1 else k + 1
  }

  function ImpIds(imps: seq<Imp>): (ids: seq<string>)
    ensures |ids| == |imps| && forall i :: 0 <= i < |imps| ==> ids[i] == imps[i].id
  {
    if |imps| == 0 then [] else [imps[0].id] + ImpIds(imps[1..])
  }

  /** A bid handed to the router: agent, auction, the bid, the agent's configuration. */
  datatype Submission = Submission(agent: string, auctionId: string, bid: RouterBid, config: AgentConfig)

  /** Checks one response bid and builds the submission for it. */
  function HandleBid(bid: ResponseBid, auctionId: string, request: OpenRtbRequest,
                     bidders: seq<(string, BidInfo)>, routerExternalIds: map<string, nat>)
    : (r: Result<Submission, ResponseError>)
    requires forall b :: 0 <= b < |bidders| ==> bidders[b].0 in routerExternalIds
    ensures !IsMember(bid.ext, "external-id") ==> r == Err(MissingExternalId)
    ensures r.Ok? ==>
              AsUInt(At(bid.ext, "external-id")).Ok?
              && FindAgent(bidders, routerExternalIds, AsUInt(At(bid.ext, "external-id")).value)
                 == Some((r.value.agent, r.value.config))
              && r.value.bid.creativeIndex < |r.value.config.creativeIds|
              && r.value.config.creativeIds[r.value.bid.creativeIndex] == bid.crid
              && r.value.bid.spotIndex < |request.imps|
              && request.imps[r.value.bid.spotIndex].id == bid.impid
              && r.value.bid.priceCpm == bid.priceCpm && r.value.bid.priority == 0
              && r.value.auctionId == auctionId
    // The checks run in the source's order, and the first that fails names the error.
    ensures var id := AsUInt(At(bid.ext, "external-id"));
            IsMember(bid.ext, "external-id") && id.Err? ==> r == Err(BadExternalId(id.error))
    ensures var id := AsUInt(At(bid.ext, "external-id"));
            IsMember(bid.ext, "external-id") && id.Ok? && FindAgent(bidders, routerExternalIds, id.value).None? ==>
              r == Err(UnknownExternalId(id.value))
    ensures var id := AsUInt(At(bid.ext, "external-id"));
            IsMember(bid.ext, "external-id") && id.Ok? ==>
              var agent := FindAgent(bidders, routerExternalIds, id.value);
              agent.Some? && bid.crid !in agent.value.1.creativeIds ==> r == Err(UnknownCreative(bid.crid))
    ensures var id := AsUInt(At(bid.ext, "external-id"));
            IsMember(bid.ext, "external-id") && id.Ok? ==>
              var agent := FindAgent(bidders, routerExternalIds, id.value);
              agent.Some? && bid.crid in agent.value.1.creativeIds && bid.impid !in ImpIds(request.imps)
              ==> r == Err(UnknownImpression(bid.impid))
    // A bid passing every check is submitted.
    ensures var id := AsUInt(At(bid.ext, "external-id"));
            r.Ok? <==> IsMember(bid.ext, "external-id") && id.Ok?
                       && var agent := FindAgent(bidders, routerExternalIds, id.value);
                          agent.Some? && bid.crid in agent.value.1.creativeIds && bid.impid in ImpIds(request.imps)
    // The creative and the spot are the first that match.
    ensures r.Ok? ==> forall j :: 0 <= j < r.value.bid.creativeIndex ==> r.value.config.creativeIds[j] != bid.crid
    ensures r.Ok? ==> forall j :: 0 <= j < r.value.bid.spotIndex ==> request.imps[j].id != bid.impid
  {
    if !IsMember(bid.ext, "external-id") then Err(MissingExternalId)
    else
      var externalId :- AsUInt(At(bid.ext, "external-id")).MapFailure(e => BadExternalId(e));
      match FindAgent(bidders, routerExternalIds, externalId)
      case None => Err(UnknownExternalId(externalId))
      case Some((agent, config)) =>
        var creativeIndex := IndexOf(config.creativeIds, bid.crid);
        if creativeIndex == -1 then Err(UnknownCreative(bid.crid))
        else
          var spotIndex := IndexOf(ImpIds(request.imps), bid.impid);
          if spotIndex == -1 then Err(UnknownImpression(bid.impid))
          else Ok(Submission(agent, auctionId, RouterBid(creativeIndex, bid.priceCpm, 0, spotIndex), config))
  }

  /** The reply handled bid by bid: each good bid is submitted at once, and the
      first bad one raises, leaving the bids after it unhandled. */
  datatype Handled = Handled(submitted: seq<Submission>, error: Option<ResponseError>)

  function HandleBids(bids: seq<ResponseBid>, auctionId: string, request: OpenRtbRequest,
                      bidders: seq<(string, BidInfo)>, routerExternalIds: map<string, nat>): (r: Handled)
    requires forall b :: 0 <= b < |bidders| ==> bidders[b].0 in routerExternalIds
    ensures |r.submitted| <= |bids|
    ensures r.error.None? <==> |r.submitted| == |bids|
    ensures forall i :: 0 <= i < |r.submitted| ==>
              HandleBid(bids[i], auctionId, request, bidders, routerExternalIds) == Ok(r.submitted[i])
    ensures r.error.Some? ==>
              HandleBid(bids[|r.submitted|], auctionId, request, bidders, routerExternalIds) == Err(r.error.value)
  {
    var outcomes := seq(|bids|, i requires 0 <= i < |bids| => HandleBid(bids[i], auctionId, request, bidders, routerExternalIds));
    UpToFirstError(outcomes)
  }

  /** The outcomes taken in order up to the first error. */
  function UpToFirstError(outcomes: seq<Result<Submission, ResponseError>>): (r: Handled)
    ensures |r.submitted| <= |outcomes|
    ensures r.error.None? <==> |r.submitted| == |outcomes|
    ensures forall i :: 0 <= i < |r.submitted| ==> outcomes[i] == Ok(r.submitted[i])
    ensures r.error.Some? ==> outcomes[|r.submitted|] == Err(r.error.value)
  {
    if |outcomes| == 0 then Handled([], None)
    else match outcomes[0]
      case Err(e) => Handled([], Some(e))
      case Ok(s) =>
        var rest := UpToFirstError(outcomes[1..]);
        Handled([s] + rest.submitted, rest.error)
  }


  function Flatten(seatbids: seq<seq<ResponseBid>>): (bids: seq<ResponseBid>) {
    if |seatbids| == 0 then [] else seatbids[0] + Flatten(seatbids[1..])
  }

  /** The reply callback of `sendAuctionMessage`: a transport error is
      reported, a 200 is parsed and its bids handled seat by seat, any other
      status is ignored. */
  function OnAuctionReply(errorCode: HttpClientError, status: int, body: string, routerHost: string,
                          parse: string -> Option<seq<seq<ResponseBid>>>, auctionId: string,
                          request: OpenRtbRequest, bidders: seq<(string, BidInfo)>,
                          routerExternalIds: map<string, nat>): (r: Handled)
    requires forall b :: 0 <= b < |bidders| ==> bidders[b].0 in routerExternalIds
    ensures errorCode != NONE ==> r.submitted == [] && r.error.Some?
    ensures errorCode == NONE && status != 200 ==> r == Handled([], None)
    ensures errorCode == NONE && status == 200 && parse(body).Some? ==>
              r == HandleBids(Flatten(parse(body).value), auctionId, request, bidders, routerExternalIds)
  {
    if errorCode != NONE then
      match HttpErrorString(errorCode)
      case Ok(name) => Handled([], Some(RequestFailed(routerHost, name)))
      case Err(_) => Handled([], Some(InvalidErrorCode))
    else if status != 200 then Handled([], None)
    else match parse(body)
      case None => Handled([], Some(Unparsable(body)))
      case Some(seatbids) => HandleBids(Flatten(seatbids), auctionId, request, bidders, routerExternalIds)
  }

  /** A bid naming an agent's external id, one of its creatives and a tagged
      impression reaches the router as that agent's bid on that spot. */
  lemma GoodBidSubmitted(externalId: nat, agent: string, info: BidInfo, crid: int, price: int,
                         imp: Imp, auctionId: string)
    requires info.agentConfig.externalId == externalId && externalId <= MaxUInt32
    requires info.agentConfig.creativeIds == [crid]
    ensures var bid := ResponseBid(Obj([("external-id", Int(externalId))]), crid, price, imp.id);
            var request := OpenRtbRequest([imp], 100);
            HandleBid(bid, auctionId, request, [(agent, info)], map[agent := externalId])
            == Ok(Submission(agent, auctionId, RouterBid(0, price, 0, 0), info.agentConfig))
  {
    var request := OpenRtbRequest([imp], 100);
    var ext := Obj([("external-id", Int(externalId))]);
    assert Member(ext, "external-id") == Some(Int(externalId));
    assert AsUInt(At(ext, "external-id")) == Ok(externalId);
    assert FindAgent([(agent, info)], map[agent := externalId], externalId) == Some((agent, info.agentConfig));
    assert IndexOf(info.agentConfig.creativeIds, crid) == 0;
    assert ImpIds(request.imps) == [imp.id];
    assert IndexOf(ImpIds(request.imps), imp.id) == 0;
  }

  /** Any bid naming the external id of a configured agent, one of its
      creatives and one of the request's impressions is submitted for the
      first agent with that id, at the first matching creative and spot, with
      its price and priority 0. */
  lemma BidSubmittedAtFirstMatch(bid: ResponseBid, auctionId: string, request: OpenRtbRequest,
                                 bidders: seq<(string, BidInfo)>, routerExternalIds: map<string, nat>,
                                 externalId: nat, agent: string, config: AgentConfig, c: nat, s: nat)
    requires forall b :: 0 <= b < |bidders| ==> bidders[b].0 in routerExternalIds
    requires IsMember(bid.ext, "external-id") && AsUInt(At(bid.ext, "external-id")) == Ok(externalId)
    requires FindAgent(bidders, routerExternalIds, externalId) == Some((agent, config))
    requires c < |config.creativeIds| && config.creativeIds[c] == bid.crid
    requires forall j :: 0 <= j < c ==> config.creativeIds[j] != bid.crid
    requires s < |request.imps| && request.imps[s].id == bid.impid
    requires forall j :: 0 <= j < s ==> request.imps[j].id != bid.impid
    ensures HandleBid(bid, auctionId, request, bidders, routerExternalIds)
            == Ok(Submission(agent, auctionId, RouterBid(c, bid.priceCpm, 0, s), config))
  {
    var r := HandleBid(bid, auctionId, request, bidders, routerExternalIds);
    assert bid.impid == ImpIds(request.imps)[s];
    assert r.Ok?;
    FirstMatchUnique(config.creativeIds, bid.crid, c, r.value.bid.creativeIndex);
    FirstMatchUnique(ImpIds(request.imps), bid.impid, s, r.value.bid.spotIndex);
  }

  /** A value has only one first position. */
  lemma FirstMatchUnique<T>(s: seq<T>, x: T, a: nat, b: nat)
    requires a < |s| && s[a] == x && forall j :: 0 <= j < a ==> s[j] != x
    requires b < |s| && s[b] == x && forall j :: 0 <= j < b ==> s[j] != x
    ensures a == b
  {
  }

  /** `submitBids`: the router message [agent, "BID", auction id, bids JSON,
      win cost model JSON]. */
  function SubmitBids(agent: string, auctionId: string, bidsJson: Json, wcm: WinCostModel.WinCostModel,
                      write: Json -> string): (message: seq<string>)
    ensures |message| == 5 && message[0] == agent && message[1] == "BID" && message[2] == auctionId
    ensures message[3] == write(bidsJson) && message[4] == write(WinCostModel.ToJson(wcm))
  {
    [agent, "BID", auctionId, write(bidsJson), write(WinCostModel.ToJson(wcm))]
  }

  datatype PingError = BadPingLevel   // "Bad PING level, must be either 0 or 1"

  /** `sendPingMessage`: answers PONG0 or PONG1 at once, with the same time
      for sending and receiving. */
  function SendPing(agent: string, ping: int, sentTime: string): (r: Result<seq<string>, PingError>)
    ensures r.Err? <==> ping != 0 && ping != 1
    ensures r.Ok? ==> r.value == [agent, if ping == 0 then "PONG0" else "PONG1", sentTime, sentTime]
  {
    if !(ping == 0 || ping == 1) then Err(BadPingLevel)
    else Ok([agent, if ping == 0 then "PONG0" else "PONG1", sentTime, sentTime])
  }

  datatype WinLossType = Win | Loss

  /** A matched win or loss, as far as the notification uses it. */
  datatype MatchedWinLoss = MatchedWinLoss(winLossType: WinLossType, timestamp: int, auctionId: string,
                                           impId: string, uids: Json, winPriceCpm: int)

  /** A POST to the ad server: host and JSON content (path "/"). */
  datatype AdserverPost = AdserverPost(host: string, content: Json)

  /** `sendWinLossMessage`: losses are not reported; a win is posted to the
      win port (members in jsoncpp's sorted order). */
  function SendWinLoss(c: HttpConfig, event: MatchedWinLoss): (r: Option<AdserverPost>)
    ensures r.None? <==> event.winLossType == Loss
    ensures r.Some? ==> r.value.host == WinHost(c)
                        && Member(r.value.content, "bidRequestId") == Some(Str(event.auctionId))
                        && Member(r.value.content, "impid") == Some(Str(event.impId))
                        && Member(r.value.content, "price") == Some(Int(event.winPriceCpm))
                        && Member(r.value.content, "timestamp") == Some(Int(event.timestamp))
                        && Member(r.value.content, "userIds") == Some(event.uids)
                        && |r.value.content.members| == 5
  {
    if event.winLossType == Loss then None
    else
      WinContentMembers(event);
      Some(AdserverPost(WinHost(c), Obj(WinContent(event))))
  }

  /** The members of a win notification, in jsoncpp's sorted order. */
  function WinContent(event: MatchedWinLoss): seq<(string, Json)> {
    [("bidRequestId", Str(event.auctionId)), ("impid", Str(event.impId)),
     ("price", Int(event.winPriceCpm)), ("timestamp", Int(event.timestamp)),
     ("userIds", event.uids)]
  }

  lemma WinContentMembers(event: MatchedWinLoss)
    ensures var members := WinContent(event);
            Lookup(members, "bidRequestId") == Some(Str(event.auctionId))
            && Lookup(members, "impid") == Some(Str(event.impId))
            && Lookup(members, "price") == Some(Int(event.winPriceCpm))
            && Lookup(members, "timestamp") == Some(Int(event.timestamp))
            && Lookup(members, "userIds") == Some(event.uids)
  {
    var members := WinContent(event);
    assert "bidRequestId"[0] == 'b' && "impid"[0] == 'i' && "price"[0] == 'p'
           && "timestamp"[0] == 't' && "userIds"[0] == 'u';
    LookupAt(members, 0);
    LookupAt(members, 1);
    LookupAt(members, 2);
    LookupAt(members, 3);
    LookupAt(members, 4);
  }

  /** A campaign event, as far as the notification uses it. */
  datatype MatchedCampaignEvent = MatchedCampaignEvent(eventLabel: string, timestamp: int, auctionId: string, impId: string)

  /** `sendCampaignEventMessage`: posted to the event port, with the event's
      label as "type". */
  function SendCampaignEvent(c: HttpConfig, event: MatchedCampaignEvent): (r: AdserverPost)
    ensures r.host == EventHost(c)
    ensures Member(r.content, "bidRequestId") == Some(Str(event.auctionId))
    ensures Member(r.content, "impid") == Some(Str(event.impId))
    ensures Member(r.content, "timestamp") == Some(Int(event.timestamp))
    ensures Member(r.content, "type") == Some(Str(event.eventLabel))
    ensures |r.content.members| == 4
  {
    var members := [("bidRequestId", Str(event.auctionId)), ("impid", Str(event.impId)),
                    ("timestamp", Int(event.timestamp)), ("type", Str(event.eventLabel))];
    assert "bidRequestId"[0] == 'b' && "impid"[0] == 'i' && "timestamp"[0] == 't' && "type"[1] == 'y'
           && "timestamp"[1] == 'i';
    LookupAt(members, 0);
    LookupAt(members, 1);
    LookupAt(members, 2);
    LookupAt(members, 3);
    AdserverPost(EventHost(c), Obj(members))
  }

  /** The reply callbacks of both notifications: a transport error raises
      "Error requesting <host>:<port> '<code>'". */
  function OnAdserverReply(errorCode: HttpClientError): (r: Option<Result<string, string>>)
    ensures r.None? <==> errorCode == NONE
    ensures r.Some? ==> r.value == HttpErrorString(errorCode)
  {
    if errorCode == NONE then None else Some(HttpErrorString(errorCode))
  }
}
