/** `ZmqAnalytics`: the analytics plugin that publishes the router's and the
    post-auction loop's events on a ZMQ socket.

    Modelled: the service name, the usage-metric bookkeeping of
    `logUsageMessage` (stale agents pruned, per-agent and router deltas
    published, the remembered counters replaced), the event-name mapping of
    `logAuctionEventMessage`, the topics of the matched/unmatched events, and
    the "zmq" registration. The publisher is an append-only log; clocks and
    floating-point fields are not modelled. */
module ZmqAnalytics {
  import opened Wrappers
  import opened Json
  import PluginTable
  import PluginInterface

  /** The plugin's service name: the given name with "/logger" appended. */
  function LoggerName(serviceName: string): string {
    serviceName + "/logger"
  }

  /** Different services get different logger names. */
  lemma LoggerNameInjective(a: string, b: string)
    requires LoggerName(a) == LoggerName(b)
    ensures a == b
  {
    assert a == LoggerName(a)[..|a|];
    assert b == LoggerName(b)[..|b|];
  }

  datatype ZmqAnalytics = ZmqAnalytics(serviceName: string)

  /** The factory the plugin registers: builds a logger for a service. */
  type AnalyticsFactory = string -> ZmqAnalytics

  function ZmqFactory(serviceName: string): (a: ZmqAnalytics)
    ensures a.serviceName == LoggerName(serviceName)
  {
    ZmqAnalytics(LoggerName(serviceName))
  }

  /** The static initializer: register the factory as the analytics plugin "zmq". */
  function RegisterZmq(t: PluginTable.Table<AnalyticsFactory>, factoryType: PluginTable.CppType)
    : (r: Result<PluginTable.Table<AnalyticsFactory>, PluginTable.Error>)
    ensures r.Ok?
  {
    PluginInterface.RegisterPlugin(t, PluginInterface.Analytics(factoryType), "zmq", ZmqFactory)
  }

  /** After start-up, asking for the analytics plugin "zmq" loads nothing and
      builds loggers named "<service>/logger". */
  lemma ZmqRegistered(t: PluginTable.Table<AnalyticsFactory>, factoryType: PluginTable.CppType,
                      load: string -> PluginTable.LoadOutcome<AnalyticsFactory>, serviceName: string)
    requires PluginTable.Key("zmq", factoryType.mangledName) !in t
    ensures var t' := RegisterZmq(t, factoryType).value;
            var got := PluginInterface.GetPlugin(t', PluginInterface.Analytics(factoryType), "zmq", load);
            got.loads == [] && got.result.Ok?
            && got.result.value(serviceName) == ZmqAnalytics(serviceName + "/logger")
  {
    PluginInterface.RegisterThenGetPlugin(t, PluginInterface.Analytics(factoryType), "zmq", ZmqFactory, load);
  }

  // ---------------------------------------------------------------- Usage

  /** `Router::AgentUsageMetrics`. */
  datatype AgentUsage = AgentUsage(intoFilters: int, passedStaticFilters: int, passedDynamicFilters: int,
                                   auctions: int, bids: int)

  const ZeroAgentUsage := AgentUsage(0, 0, 0, 0, 0)

  function SubAgent(a: AgentUsage, b: AgentUsage): AgentUsage {
    AgentUsage(a.intoFilters - b.intoFilters, a.passedStaticFilters - b.passedStaticFilters,
               a.passedDynamicFilters - b.passedDynamicFilters, a.auctions - b.auctions, a.bids - b.bids)
  }

  function AddAgent(a: AgentUsage, b: AgentUsage): AgentUsage {
    AgentUsage(a.intoFilters + b.intoFilters, a.passedStaticFilters + b.passedStaticFilters,
               a.passedDynamicFilters + b.passedDynamicFilters, a.auctions + b.auctions, a.bids + b.bids)
  }

  /** `Router::RouterUsageMetrics`. */
  datatype RouterUsage = RouterUsage(numRequests: int, numAuctions: int, numNoPotentialBidders: int,
                                     numBids: int, numAuctionsWithBid: int)

  function SubRouter(a: RouterUsage, b: RouterUsage): RouterUsage {
    RouterUsage(a.numRequests - b.numRequests, a.numAuctions - b.numAuctions,
                a.numNoPotentialBidders - b.numNoPotentialBidders, a.numBids - b.numBids,
                a.numAuctionsWithBid - b.numAuctionsWithBid)
  }

  /** A configured agent: its counters and its account. */
  datatype AgentInfo = AgentInfo(stats: AgentUsage, account: string)

  /** An exchange connector's request and auction counters. */
  datatype Exchange = Exchange(numRequests: int, numAuctions: int)

  /** The parts of the router the usage message reads and writes. `agents`
      lists the agent map's entries in its order. */
  datatype Router = Router(agents: seq<(string, AgentInfo)>, lastAgentUsage: map<string, AgentUsage>,
                           lastRouterUsage: RouterUsage, exchanges: seq<Exchange>,
                           numBids: int, numNoPotentialBidders: int, numAuctionsWithBid: int)

  predicate DistinctNames(agents: seq<(string, AgentInfo)>) {
    forall i, j :: 0 <= i < j < |agents| ==> agents[i].0 != agents[j].0
  }

  function AgentNames(agents: seq<(string, AgentInfo)>): (names: set<string>)
    ensures forall i :: 0 <= i < |agents| ==> agents[i].0 in names
    ensures forall n :: n in names ==> exists i :: 0 <= i < |agents| && agents[i].0 == n
  {
    if |agents| == 0 then {}
    else
      var rest := AgentNames(agents[1..]);
      assert forall i :: 1 <= i < |agents| ==> agents[i] == agents[1..][i - 1];
      {agents[0].0} + rest
  }

  /** One published message. */
  datatype Record =
    | AgentUsageRecord(period: string, agent: string, account: string, delta: AgentUsage)
    | RouterUsageRecord(period: string, routerDelta: RouterUsage)
    | Event(topic: string, timestamp: int, fields: seq<string>)

  /** What an agent's counters are compared with: the remembered ones, or
      zero for an agent seen for the first time. */
  function Previous(last: map<string, AgentUsage>, name: string): AgentUsage {
    if name in last then last[name] else ZeroAgentUsage
  }

  /** The per-agent loop: publish each agent's delta and remember its counters. */
  function UpdateAgents(period: string, agents: seq<(string, AgentInfo)>, last: map<string, AgentUsage>)
    : (r: (seq<Record>, map<string, AgentUsage>))
    ensures |r.0| == |agents|
  {
    if |agents| == 0 then ([], last)
    else
      var (name, info) := agents[0];
      var rest := UpdateAgents(period, agents[1..], last[name := info.stats]);
      var record := AgentUsageRecord(period, name, info.account, SubAgent(info.stats, Previous(last, name)));
      ([record] + rest.0, rest.1)
  }

  /** The per-agent loop publishes each agent's delta against what was
      remembered before the loop. */
  lemma {:induction false} UpdateAgentsRecords(period: string, agents: seq<(string, AgentInfo)>,
                                               last: map<string, AgentUsage>)
    requires DistinctNames(agents)
    ensures var records := UpdateAgents(period, agents, last).0;
            forall i :: 0 <= i < |agents| ==>
              records[i] == AgentUsageRecord(period, agents[i].0, agents[i].1.account,
                                             SubAgent(agents[i].1.stats, Previous(last, agents[i].0)))
  {
    if |agents| > 0 {
      var (name, info) := agents[0];
      var tail := agents[1..];
      var last' := last[name := info.stats];
      assert forall i :: 1 <= i < |agents| ==> agents[i] == tail[i - 1];
      UpdateAgentsRecords(period, tail, last');
      assert forall i :: 0 <= i < |tail| ==> Previous(last', tail[i].0) == Previous(last, tail[i].0);
    }
  }

  /** The per-agent loop remembers every agent's counters and keeps the
      entries of agents it did not visit. */
  lemma {:induction false} UpdateAgentsMemory(period: string, agents: seq<(string, AgentInfo)>,
                                              last: map<string, AgentUsage>)
    requires DistinctNames(agents)
    ensures var memory := UpdateAgents(period, agents, last).1;
            memory.Keys == last.Keys + AgentNames(agents)
            && (forall i :: 0 <= i < |agents| ==> memory[agents[i].0] == agents[i].1.stats)
            && (forall k :: k in last && k !in AgentNames(agents) ==> memory[k] == last[k])
  {
    if |agents| > 0 {
      var (name, info) := agents[0];
      var tail := agents[1..];
      assert forall i :: 1 <= i < |agents| ==> agents[i] == tail[i - 1];
      UpdateAgentsMemory(period, tail, last[name := info.stats]);
      assert name !in AgentNames(tail);
    }
  }

  function SumRequests(exchanges: seq<Exchange>): int {
    if |exchanges| == 0 then 0 else exchanges[0].numRequests + SumRequests(exchanges[1..])
  }

  function SumAuctions(exchanges: seq<Exchange>): int {
    if |exchanges| == 0 then 0 else exchanges[0].numAuctions + SumAuctions(exchanges[1..])
  }

  /** The router's current totals: request and auction counts summed over the
      exchanges, the other three read from the router. */
  function RouterTotals(router: Router): RouterUsage {
    RouterUsage(SumRequests(router.exchanges), SumAuctions(router.exchanges),
                router.numNoPotentialBidders, router.numBids, router.numAuctionsWithBid)
  }

  /** The first loop of `logUsageMessage`: forget the agents the router no
      longer has. */
  function Prune(last: map<string, AgentUsage>, agents: seq<(string, AgentInfo)>): (pruned: map<string, AgentUsage>)
    ensures pruned.Keys == last.Keys * AgentNames(agents)
    ensures forall n :: n in AgentNames(agents) ==> Previous(pruned, n) == Previous(last, n)
  {
    map k | k in last && k in AgentNames(agents) :: last[k]
  }

  /** The messages `logUsageMessage` publishes: one per agent, then the router's. */
  function UsageRecords(router: Router, period: string): (records: seq<Record>)
    requires DistinctNames(router.agents)
    ensures |records| == |router.agents| + 1
    ensures forall i :: 0 <= i < |router.agents| ==>
              records[i] == AgentUsageRecord(period, router.agents[i].0, router.agents[i].1.account,
                                             SubAgent(router.agents[i].1.stats,
                                                      Previous(router.lastAgentUsage, router.agents[i].0)))
    ensures records[|router.agents|] == RouterUsageRecord(period, SubRouter(RouterTotals(router), router.lastRouterUsage))
  {
    var pruned := Prune(router.lastAgentUsage, router.agents);
    UpdateAgentsRecords(period, router.agents, pruned);
    UpdateAgents(period, router.agents, pruned).0
      + [RouterUsageRecord(period, SubRouter(RouterTotals(router), router.lastRouterUsage))]
  }

  /** The router after `logUsageMessage`: it remembers exactly the current
      agents' counters and the current totals, and nothing else changes. */
  function AfterUsage(router: Router, period: string): (router': Router)
    requires DistinctNames(router.agents)
    ensures router'.lastAgentUsage.Keys == AgentNames(router.agents)
    ensures forall i :: 0 <= i < |router.agents| ==> router'.lastAgentUsage[router.agents[i].0] == router.agents[i].1.stats
    ensures router'.lastRouterUsage == RouterTotals(router)
    ensures router' == router.(lastAgentUsage := router'.lastAgentUsage, lastRouterUsage := router'.lastRouterUsage)
  {
    var pruned := Prune(router.lastAgentUsage, router.agents);
    UpdateAgentsMemory(period, router.agents, pruned);
    router.(lastAgentUsage := UpdateAgents(period, router.agents, pruned).1, lastRouterUsage := RouterTotals(router))
  }

  /** `logUsageMessage`: the records appended to the log, and the router after. */
  function LogUsage(log: seq<Record>, router: Router, period: string): (r: (seq<Record>, Router))
    requires DistinctNames(router.agents)
    ensures |r.0| >= |log| && r.0[..|log|] == log && r.0[|log|..] == UsageRecords(router, period)
    ensures r.1 == AfterUsage(router, period)
  {
    assert (log + UsageRecords(router, period))[..|log|] == log;
    (log + UsageRecords(router, period), AfterUsage(router, period))
  }

  /** Publishing deltas loses nothing: what was remembered plus the published
      delta is what is remembered now, for every agent. */
  lemma UsageDeltasAccumulate(router: Router, period: string, i: int)
    requires DistinctNames(router.agents) && 0 <= i < |router.agents|
    ensures var name := router.agents[i].0;
            AddAgent(Previous(router.lastAgentUsage, name), UsageRecords(router, period)[i].delta)
            == AfterUsage(router, period).lastAgentUsage[name]
  {
  }

  /** Logging twice with unchanged counters leaves the router as the first
      call left it ... */
  lemma SecondUsageUnchanged(router: Router, period: string)
    requires DistinctNames(router.agents)
    ensures var router1 := AfterUsage(router, period);
            AfterUsage(router1, period) == router1
  {
    var router1 := AfterUsage(router, period);
    var router2 := AfterUsage(router1, period);
    assert router1.agents == router.agents;
    assert RouterTotals(router1) == RouterTotals(router);
    assert router2.lastAgentUsage.Keys == router1.lastAgentUsage.Keys;
    forall k | k in router1.lastAgentUsage ensures router2.lastAgentUsage[k] == router1.lastAgentUsage[k] {
      var i :| 0 <= i < |router.agents| && router.agents[i].0 == k;
    }
  }

  /** ... and publishes all-zero deltas the second time. */
  lemma SecondReportIsZero(router: Router, period: string)
    requires DistinctNames(router.agents)
    ensures var router1 := AfterUsage(router, period);
            (forall i :: 0 <= i < |router.agents| ==> UsageRecords(router1, period)[i].delta == ZeroAgentUsage)
            && UsageRecords(router1, period)[|router.agents|] == RouterUsageRecord(period, RouterUsage(0, 0, 0, 0, 0))
  {
    var router1 := AfterUsage(router, period);
    forall i | 0 <= i < |router.agents|
      ensures UsageRecords(router1, period)[i].delta == ZeroAgentUsage
    {
      SecondAgentDeltaZero(router, period, i);
    }
    SecondRouterDeltaZero(router, period);
  }

  /** The second report's router delta is zero. */
  lemma SecondRouterDeltaZero(router: Router, period: string)
    requires DistinctNames(router.agents)
    ensures var router1 := AfterUsage(router, period);
            UsageRecords(router1, period)[|router.agents|] == RouterUsageRecord(period, RouterUsage(0, 0, 0, 0, 0))
  {
    var router1 := AfterUsage(router, period);
    assert router1.agents == router.agents && router1.exchanges == router.exchanges;
    assert RouterTotals(router1) == RouterTotals(router);
  }

  /** The second report's delta for agent `i` is zero. */
  lemma SecondAgentDeltaZero(router: Router, period: string, i: int)
    requires DistinctNames(router.agents) && 0 <= i < |router.agents|
    ensures UsageRecords(AfterUsage(router, period), period)[i].delta == ZeroAgentUsage
  {
    var router1 := AfterUsage(router, period);
    assert router1.agents == router.agents;
    var name := router.agents[i].0;
    assert Previous(router1.lastAgentUsage, name) == router.agents[i].1.stats;
  }

  /** An agent removed from the router is forgotten, and one that comes back
      is compared with zero. */
  lemma RemovedAgentForgotten(log: seq<Record>, router: Router, period: string, gone: string)
    requires DistinctNames(router.agents)
    requires gone !in AgentNames(router.agents)
    ensures gone !in LogUsage(log, router, period).1.lastAgentUsage
  {
  }

  // ---------------------------------------------------------------- Events

  /** The event name of `logAuctionEventMessage`: "click" and "conversion"
      are upper-cased, any other name is kept. */
  function AuctionEventName(event: string): (r: string)
    ensures event == "click" ==> r == "CLICK"
    ensures event == "conversion" ==> r == "CONVERSION"
    ensures event != "click" && event != "conversion" ==> r == event
  {
    if event == "click" then "CLICK"
    else if event == "conversion" then "CONVERSION"
    else event
  }

  /** Applying the mapping again changes nothing. */
  lemma AuctionEventNameIdempotent(event: string)
    ensures AuctionEventName(AuctionEventName(event)) == AuctionEventName(event)
  {
    assert "CLICK" != "click" && "CLICK" != "conversion";
    assert "CONVERSION" != "click" && "CONVERSION" != "conversion";
  }

  /** `logAuctionEventMessage`: published under the mapped event name at the
      event's "timestamp", with the auction id, the ad spot id and the user
      ids. A string member that is a number, array or object, or a timestamp
      that is a string, array or object, makes its conversion throw. */
  function LogAuctionEvent(log: seq<Record>, json: Json, userIdStr: string): (r: Result<seq<Record>, ConversionError>)
    ensures r.Ok? ==> |r.value| == |log| + 1 && r.value[..|log|] == log
    ensures AsString(At(json, "event")).Err? ==> r.Err?
    ensures r.Ok? ==> AsString(At(json, "event")).Ok? && r.value[|log|].Event?
                      && r.value[|log|].topic == AuctionEventName(AsString(At(json, "event")).value)
    // Success exactly when all four members convert; the record then carries them.
    ensures var event, timestamp := AsString(At(json, "event")), AsDouble(At(json, "timestamp"));
            var auctionId, adSpotId := AsString(At(json, "auctionId")), AsString(At(json, "adSpotId"));
            (r.Ok? <==> event.Ok? && timestamp.Ok? && auctionId.Ok? && adSpotId.Ok?)
            && (r.Ok? ==> r.value[|log|] == Event(AuctionEventName(event.value), timestamp.value,
                                                  [auctionId.value, adSpotId.value, userIdStr]))
    // The event name is read first; otherwise a failing member's conversion error is reported.
    ensures AsString(At(json, "event")).Err? ==> r == Err(AsString(At(json, "event")).error)
    ensures r.Err? ==> (AsString(At(json, "event")).Err? && r.error == AsString(At(json, "event")).error)
                       || (AsDouble(At(json, "timestamp")).Err? && r.error == AsDouble(At(json, "timestamp")).error)
                       || (AsString(At(json, "auctionId")).Err? && r.error == AsString(At(json, "auctionId")).error)
                       || (AsString(At(json, "adSpotId")).Err? && r.error == AsString(At(json, "adSpotId")).error)
  {
    var event :- AsString(At(json, "event"));
    var timestamp :- AsDouble(At(json, "timestamp"));
    var auctionId :- AsString(At(json, "auctionId"));
    var adSpotId :- AsString(At(json, "adSpotId"));
    Ok(log + [Event(AuctionEventName(event), timestamp, [auctionId, adSpotId, userIdStr])])
  }

  /** An event whose timestamp is text is not published: `asDouble()` throws. */
  lemma TextTimestampRejected(log: seq<Record>, json: Json, userIdStr: string)
    requires At(json, "timestamp").Str?
    ensures LogAuctionEvent(log, json, userIdStr) == Err(NotConvertible(At(json, "timestamp")))
            || LogAuctionEvent(log, json, userIdStr) == Err(NotConvertible(At(json, "event")))
  {
  }

  /** A "click" event is published as "CLICK". */
  lemma ClickPublishedUpperCase(log: seq<Record>, auctionId: string, adSpotId: string, time: int, userIdStr: string)
    ensures var json := Obj([("adSpotId", Str(adSpotId)), ("auctionId", Str(auctionId)), ("event", Str("click")),
                             ("timestamp", Int(time))]);
            LogAuctionEvent(log, json, userIdStr) == Ok(log + [Event("CLICK", time, [auctionId, adSpotId, userIdStr])])
  {
    var json := Obj([("adSpotId", Str(adSpotId)), ("auctionId", Str(auctionId)), ("event", Str("click")),
                     ("timestamp", Int(time))]);
    ClickJsonMembers(auctionId, adSpotId, time);
    var r := LogAuctionEvent(log, json, userIdStr);
    assert r.Ok?;
    assert r.value == r.value[..|log|] + [r.value[|log|]];
  }

  lemma ClickJsonMembers(auctionId: string, adSpotId: string, time: int)
    ensures var json := Obj([("adSpotId", Str(adSpotId)), ("auctionId", Str(auctionId)), ("event", Str("click")),
                             ("timestamp", Int(time))]);
            At(json, "event") == Str("click") && At(json, "timestamp") == Int(time)
            && At(json, "auctionId") == Str(auctionId) && At(json, "adSpotId") == Str(adSpotId)
  {
    var json := Obj([("adSpotId", Str(adSpotId)), ("auctionId", Str(auctionId)), ("event", Str("click")),
                     ("timestamp", Int(time))]);
    assert "adSpotId"[2] != "auctionId"[2];
    assert "adSpotId"[0] != "event"[0] && "auctionId"[0] != "event"[0];
    assert "timestamp"[0] != "adSpotId"[0] && "timestamp"[0] != "auctionId"[0] && "timestamp"[0] != "event"[0];
    LookupAt(json.members, 0);
    LookupAt(json.members, 1);
    LookupAt(json.members, 2);
    LookupAt(json.members, 3);
  }

  /** The topics of the post-auction messages. */
  function MatchedWinLossTopic(typeString: string): string {
    "MATCHED" + typeString
  }

  function MatchedCampaignEventTopic(campaignLabel: string): string {
    "MATCHED" + campaignLabel
  }

  function UnmatchedTopic(eventType: string): string {
    "UNMATCHED" + eventType
  }

  /** A subscriber can tell matched from unmatched events by the topic, and
      recover the label or type from it. */
  lemma TopicsDistinguish(campaignLabel: string, campaignLabel': string, eventType: string, eventType': string)
    ensures MatchedCampaignEventTopic(campaignLabel) != UnmatchedTopic(eventType)
    ensures MatchedWinLossTopic(campaignLabel) != UnmatchedTopic(eventType)
    ensures MatchedCampaignEventTopic(campaignLabel) == MatchedCampaignEventTopic(campaignLabel') ==> campaignLabel == campaignLabel'
    ensures UnmatchedTopic(eventType) == UnmatchedTopic(eventType') ==> eventType == eventType'
  {
    assert MatchedCampaignEventTopic(campaignLabel)[0] == 'M' && UnmatchedTopic(eventType)[0] == 'U';
    assert MatchedCampaignEventTopic(campaignLabel)[7..] == campaignLabel && MatchedCampaignEventTopic(campaignLabel')[7..] == campaignLabel';
    assert UnmatchedTopic(eventType)[9..] == eventType && UnmatchedTopic(eventType')[9..] == eventType';
  }
}
