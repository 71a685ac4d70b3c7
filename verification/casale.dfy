/** The Casale exchange connector, an OpenRTB connector with three additions:
    campaigns must name a numeric seat, creatives must carry markup ("adm"),
    and each winning bid is filed under its campaign's seat in the response.
    It also rewrites an OpenRTB version header of "2.0" to "2.1" before parsing.

    The seat bound `CampaignInfo::MaxSeatValue`, the markup template expansion
    and the OpenRTB parser are parameters. */
module Casale {
  import opened Wrappers
  import opened Json
  import opened Text

  /** The connector's fixed settings. */
  const AuctionResource: string := "/bidder"
  const AuctionVerb: string := "POST"
  const CreativeConfigName: string := "casale"

  /** `ExchangeCompatibility`: incompatible with its reasons (kept only when
      reasons are asked for), or compatible with the campaign's seat. */
  datatype Compatibility = Incompatible(reasons: seq<string>) | Compatible(seat: nat)

  function Reject(reason: string, includeReasons: bool): Compatibility {
    Incompatible(if includeReasons then [reason] else [])
  }

  /** The seat a provider configuration names, when it is an unsigned 32-bit
      integer no larger than `maxSeat`. */
  predicate ValidSeat(providerConfig: Json, exchangeName: string, maxSeat: nat) {
    IsMember(providerConfig, exchangeName)
    && IsMember(At(providerConfig, exchangeName), "seat")
    && IsUInt(At(At(providerConfig, exchangeName), "seat"))
    && At(At(providerConfig, exchangeName), "seat").i <= maxSeat
  }

  /** `getCampaignCompatibility`. */
  function CampaignCompatibility(providerConfig: Json, exchangeName: string, maxSeat: nat,
                                 includeReasons: bool): (r: Compatibility)
    ensures r.Compatible? <==> ValidSeat(providerConfig, exchangeName, maxSeat)
    ensures r.Compatible? ==> r.seat == At(At(providerConfig, exchangeName), "seat").i
    ensures r.Incompatible? ==> |r.reasons| == (if includeReasons then 1 else 0)
  {
    var prefix := "providerConfig." + exchangeName;
    if !IsMember(providerConfig, exchangeName) then Reject(prefix + " is null", includeReasons)
    else
      var provConf := At(providerConfig, exchangeName);
      if !IsMember(provConf, "seat") then Reject(prefix + ".seat is null", includeReasons)
      else
        var seat := At(provConf, "seat");
        if !IsUInt(seat) then Reject(prefix + ".seat is not merdiumint or unsigned", includeReasons)
        else if seat.i > maxSeat then Reject(prefix + ".seat > " + NatToString(maxSeat), includeReasons)
        else Compatible(seat.i)
  }

  /** A campaign configured with a seat within bounds is accepted with that seat. */
  lemma SeatAccepted(exchangeName: string, seat: nat, maxSeat: nat, includeReasons: bool)
    requires seat <= maxSeat && seat <= MaxUInt32
    ensures var conf := Obj([(exchangeName, Obj([("seat", Int(seat))]))]);
            CampaignCompatibility(conf, exchangeName, maxSeat, includeReasons) == Compatible(seat)
  {
  }

  datatype AdmError = AdmNotAString(e: ConversionError) | EmptyAdm

  /** The "adm" creative field: decoded as a string, which must not be empty. */
  function DecodeAdm(value: Json): (r: Result<string, AdmError>)
    ensures r.Ok? ==> r.value != "" && AsString(value) == Ok(r.value)
    ensures AsString(value) == Ok("") ==> r == Err(EmptyAdm)
    ensures value.Str? && value.s != "" ==> r == Ok(value.s)
  {
    var adm :- AsString(value).MapFailure(e => AdmNotAString(e));
    if adm == "" then Err(EmptyAdm) else Ok(adm)
  }

  /** One OpenRTB bid, as `setSeatBid` fills it. */
  datatype Bid = Bid(
    cid: string,
    crid: string,
    impid: string,
    id: (string, string),
    priceCpm: int,
    adomain: seq<string>,
    adm: string)

  datatype SeatBid = SeatBid(seat: nat, bids: seq<Bid>)

  /** The bid for the winning response in spot `spotNum`: the agent as campaign
      id, the creative, the spot's impression, an id made of the auction id and
      the first impression's id, the agent's maximum price, and the creative's
      advertiser domains and expanded markup. */
  function MakeBid(agent: string, creativeId: string, impIds: seq<string>, spotNum: nat, auctionId: string,
                   maxPrice: int, adomain: seq<string>, expandedAdm: string): (b: Bid)
    requires spotNum < |impIds|
    ensures b.impid == impIds[spotNum] && b.id == (auctionId, impIds[0])
    ensures b.cid == agent && b.crid == creativeId && b.priceCpm == maxPrice
  {
    Bid(agent, creativeId, impIds[spotNum], (auctionId, impIds[0]), maxPrice, adomain, expandedAdm)
  }

  /** The position of the first seat bid for `seat`, or -1. */
  function IndexOfSeat(seatbids: seq<SeatBid>, seat: nat): (i: int)
    ensures -1 <= i < |seatbids|
    ensures i >= 0 ==> seatbids[i].seat == seat && forall j :: 0 <= j < i ==> seatbids[j].seat != seat
    ensures i == -1 ==> forall j :: 0 <= j < |seatbids| ==> seatbids[j].seat != seat
  {
    if |seatbids| == 0 then -1
    else if seatbids[0].seat == seat then 0
    else
      var k := IndexOfSeat(seatbids[1..], seat);
      if k == -1 then -1 else k + 1
  }

  /** `setSeatBid`: the bid goes to the end of its seat's bid list, creating the
      seat bid at the end of the response if the seat has none yet. */
  function SetSeatBid(seatbids: seq<SeatBid>, seat: nat, bid: Bid): (r: seq<SeatBid>)
    ensures var i := IndexOfSeat(seatbids, seat);
            if i == -1
            then r == seatbids + [SeatBid(seat, [bid])]
            else |r| == |seatbids| && r[i] == SeatBid(seat, seatbids[i].bids + [bid])
                 && forall j :: 0 <= j < |r| && j != i ==> r[j] == seatbids[j]
  {
    var i := IndexOfSeat(seatbids, seat);
    if i == -1 then seatbids + [SeatBid(seat, [bid])]
    else seatbids[i := SeatBid(seat, seatbids[i].bids + [bid])]
  }

  /** Every seat appears in at most one seat bid. */
  predicate SeatsDistinct(seatbids: seq<SeatBid>) {
    forall i, j :: 0 <= i < j < |seatbids| ==> seatbids[i].seat != seatbids[j].seat
  }

  /** The number of bids over all seat bids. */
  function CountBids(seatbids: seq<SeatBid>): (n: nat)
    ensures n == 0 <==> forall i :: 0 <= i < |seatbids| ==> |seatbids[i].bids| == 0
    ensures forall i :: 0 <= i < |seatbids| ==> |seatbids[i].bids| <= n
  {
    if |seatbids| == 0 then 0 else |seatbids[0].bids| + CountBids(seatbids[1..])
  }

  lemma {:induction false} CountBidsAppend(a: seq<SeatBid>, b: seq<SeatBid>)
    ensures CountBids(a + b) == CountBids(a) + CountBids(b)
  {
    if |a| > 0 {
      assert (a + b)[1..] == a[1..] + b;
      CountBidsAppend(a[1..], b);
    } else {
      assert a + b == b;
    }
  }

  lemma {:induction false} CountBidsUpdate(s: seq<SeatBid>, i: nat, sb: SeatBid)
    requires i < |s|
    ensures CountBids(s[i := sb]) == CountBids(s) - |s[i].bids| + |sb.bids|
  {
    if i == 0 {
      assert s[i := sb][1..] == s[1..];
    } else {
      assert s[i := sb][1..] == s[1..][i - 1 := sb];
      CountBidsUpdate(s[1..], i - 1, sb);
    }
  }

  /** Filing a bid keeps one seat bid per seat and adds exactly one bid. */
  lemma SetSeatBidInvariant(seatbids: seq<SeatBid>, seat: nat, bid: Bid)
    requires SeatsDistinct(seatbids)
    ensures SeatsDistinct(SetSeatBid(seatbids, seat, bid))
    ensures CountBids(SetSeatBid(seatbids, seat, bid)) == CountBids(seatbids) + 1
  {
    var i := IndexOfSeat(seatbids, seat);
    if i == -1 {
      CountBidsAppend(seatbids, [SeatBid(seat, [bid])]);
      assert CountBids([SeatBid(seat, [bid])]) == 1 by {
        assert [SeatBid(seat, [bid])][1..] == [];
      }
    } else {
      CountBidsUpdate(seatbids, i, SeatBid(seat, seatbids[i].bids + [bid]));
    }
  }

  /** Two bids for one seat end up in one seat bid, in order. */
  lemma TwoBidsOneSeat(seat: nat, first: Bid, second: Bid)
    ensures SetSeatBid(SetSeatBid([], seat, first), seat, second) == [SeatBid(seat, [first, second])]
  {
    var empty: seq<SeatBid> := [];
    assert empty + [SeatBid(seat, [first])] == [SeatBid(seat, [first])];
    assert SetSeatBid(empty, seat, first) == [SeatBid(seat, [first])];
    assert IndexOfSeat([SeatBid(seat, [first])], seat) == 0;
    assert [first] + [second] == [first, second];
  }

  /** HTTP headers by lower-cased name. */
  type Headers = map<string, string>

  const VersionHeader: string := "x-openrtb-version"

  /** The rewritten copy: a version "2.0" becomes "2.1", nothing else changes. */
  function FixedHeaders(h: Headers): (r: Headers)
    ensures r.Keys == h.Keys
    ensures forall k :: k in h && k != VersionHeader ==> r[k] == h[k]
    ensures VersionHeader in h ==> r[VersionHeader] == (if h[VersionHeader] == "2.0" then "2.1" else h[VersionHeader])
  {
    if VersionHeader in h && h[VersionHeader] == "2.0" then h[VersionHeader := "2.1"] else h
  }

  /** Rewriting twice is rewriting once. */
  lemma FixedHeadersIdempotent(h: Headers)
    ensures FixedHeaders(FixedHeaders(h)) == FixedHeaders(h)
  {
  }

  /** `parseBidRequest` as written: the rewritten copy is built, but the
      original headers go to the OpenRTB parser. */
  function ParseBidRequestAsWritten<R>(header: Headers, payload: string, parse: (Headers, string) -> R): (r: R)
    ensures VersionHeader !in header || header[VersionHeader] != "2.0" ==> r == ParseBidRequest(header, payload, parse)
    ensures VersionHeader in header && header[VersionHeader] == "2.0" ==> r == parse(header, payload)
  {
    parse(header, payload)
  }

  /** `parseBidRequest` as intended: the parser sees the rewritten headers. */
  function ParseBidRequest<R>(header: Headers, payload: string, parse: (Headers, string) -> R): (r: R)
    ensures VersionHeader in header && header[VersionHeader] == "2.0" ==>
              r == parse(header[VersionHeader := "2.1"], payload)
    ensures VersionHeader !in header || header[VersionHeader] != "2.0" ==> r == parse(header, payload)
  {
    parse(FixedHeaders(header), payload)
  }

  /** A request announced as OpenRTB 2.0 reaches the parser still announced as
      2.0 in the source, and as 2.1 in the intended version. */
  lemma Version20ForwardedUnchanged(header: Headers, payload: string)
    requires VersionHeader in header && header[VersionHeader] == "2.0"
    ensures ParseBidRequestAsWritten(header, payload, (h: Headers, p: string) => h)[VersionHeader] == "2.0"
    ensures ParseBidRequest(header, payload, (h: Headers, p: string) => h)[VersionHeader] == "2.1"
  {
  }
}
