/** `HttpApiBidder`: the httpapi example agent. Its response builder,
    fixed-price mix-in and request handler are the py-bidder's, line for line,
    and are modelled once in `PyBidder`; what differs is the budget pacer,
    which targets the fixed account "hello:world" with a form-encoded body and
    whose periodic request sends nothing. */
module HttpApiBidder {
  import opened Wrappers
  import opened Json
  import opened Text
  import opened OpenRtbResponse
  import opened PyBidder

  const PacerAccount: string := "hello:world"

  /** `urllib.urlencode({"USD/1M": amount})`: the key with its slash escaped. */
  function UrlEncodedBody(amount: int): string {
    "USD%2F1M=" + IntToString(amount)
  }

  /** `BudgetPacer.config`: the banker address is a (host, port) pair of
      strings; the account is fixed. */
  function PacerConfig(bankerHost: string, bankerPort: string, amount: int): (p: PacerRequest)
    ensures p.headers == [("Accept", "application/json")]
    ensures p.body == UrlEncodedBody(amount)
    ensures p.url == "http://" + bankerHost + ":" + bankerPort + BalancePath(PacerAccount)
  {
    PacerRequest("http://" + bankerHost + ":" + bankerPort + BalancePath(PacerAccount),
                 [("Accept", "application/json")], UrlEncodedBody(amount))
  }

  /** Whatever the banker address, the pacer tops up "hello:world". */
  lemma PacerTargetsFixedAccount(host: string, port: string, amount: int)
    ensures var url := PacerConfig(host, port, amount).url;
            |BalancePath("hello:world")| <= |url| && url[|url| - |BalancePath("hello:world")|..] == BalancePath("hello:world")
  {
    var url := PacerConfig(host, port, amount).url;
    var suffix := BalancePath(PacerAccount);
    assert url == ("http://" + host + ":" + port) + suffix;
  }

  /** The body names the amount: distinct amounts give distinct bodies. */
  lemma PacerBodyInjective(host: string, port: string, a1: int, a2: int)
    requires PacerConfig(host, port, a1).body == PacerConfig(host, port, a2).body
    ensures a1 == a2
  {
    var pre := "USD%2F1M=";
    assert IntToString(a1) == UrlEncodedBody(a1)[|pre|..];
    assert IntToString(a2) == UrlEncodedBody(a2)[|pre|..];
    IntToStringInjective(a1, a2);
  }

  /** `http_request`: the fetch is commented out, so a tick sends nothing. */
  function HttpRequest(p: PacerRequest): (sent: seq<PacerRequest>)
    ensures p !in sent && |sent| == 0
  {
    []
  }

  /** The requests `n` periodic ticks of the pacer send, oldest first. */
  function PacerTicks(p: PacerRequest, n: nat): seq<PacerRequest> {
    if n == 0 then [] else PacerTicks(p, n - 1) + HttpRequest(p)
  }

  /** However long the agent runs, the pacer never posts its top-up, so the
      agent's account is never refilled by it. */
  lemma {:induction false} PacerNeverPosts(p: PacerRequest, n: nat)
    ensures PacerTicks(p, n) == []
  {
    if n > 0 {
      PacerNeverPosts(p, n - 1);
    }
  }

  /** The fixed-price handler configured by `do_config` answers a JSON bid
      request whose impressions all carry an id with 200 and the priced
      response: one bid per impression, numbered from "1", each at the price
      1.0 and pointing at its impression. */
  lemma ConfiguredBidReply(contentType: string, body: string, probability: Json, creatives: seq<int>,
                           codec: PyCodec, req: Json, imps: seq<Json>)
    requires StartsWith(contentType, "application/json") && codec.loads(body) == Some(req)
    requires Subscript(req, Name("imp")) == Ok(Arr(imps))
    requires DoBid(DoConfig(probability, creatives), req).Ok?
    ensures var priced := DoBid(DoConfig(probability, creatives), req).value;
            ProcessReq(Some(contentType), body, FixedPriceBidder(DoConfig(probability, creatives)), codec)
              == Ok(Reply(200, OkHeaders, codec.dumps(priced)))
            && |priced.bids| == |imps|
            && forall k :: 0 <= k < |imps| ==>
                 priced.bids[k].price == 1.0 && priced.bids[k].id == NatToString(k + 1)
                 && priced.bids[k].impid == Some(Subscript(imps[k], Name("id")).value)
  {
    var config := DoConfig(probability, creatives);
    var priced := DoBid(config, req).value;
    FixedPriceAnswered(contentType, body, config, codec, req);
    var resp := GetDefaultResponse(req).value;
    assert FixedPrice(resp, config.price, creatives) == Some(priced);
    forall k | 0 <= k < |imps|
      ensures priced.bids[k].price == 1.0 && priced.bids[k].id == NatToString(k + 1)
              && priced.bids[k].impid == Some(Subscript(imps[k], Name("id")).value)
    {
      DefaultResponseBids(req, imps, k);
    }
  }
}
