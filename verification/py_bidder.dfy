/** `PyBidder`: the tornado example bid agent (py-bidder), and the response
    builder, fixed-price mix-in and request handler it shares line for line
    with the httpapi agent.

    Python values are `Json` values with Python's subscript and iteration
    rules; JSON `null` is `None`. A raised exception is an error result, and
    the bare `except` around the external-id read turns any of them into "no
    external id". `json.loads` and `json.dumps` are supplied by the caller. */
module PyBidder {
  import opened Wrappers
  import opened Json
  import opened Text
  import opened OpenRtbResponse

  datatype PyError = KeyError | IndexError | TypeError | ValueError

  /** A subscript: a string key or a non-negative integer index. */
  datatype Key = Name(name: string) | Index(index: nat)

  /** `v[k]`: a dict is looked up by key (an integer key is never among the
      string keys of parsed JSON), a list or string is indexed, and anything
      else cannot be subscripted. */
  function Subscript(v: Json, k: Key): (r: Result<Json, PyError>)
    ensures r.Ok? ==> v.Obj? || v.Arr? || v.Str?
    ensures v.Obj? && k.Name? ==> (r.Ok? <==> Member(v, k.name).Some?)
    ensures v.Obj? && k.Name? && r.Ok? ==> r.value == Member(v, k.name).value
    ensures v.Arr? && k.Index? ==> r == (if k.index < |v.items| then Ok(v.items[k.index]) else Err(IndexError))
    ensures r.Err? && r.error == TypeError <==> !(v.Obj? || ((v.Arr? || v.Str?) && k.Index?))
  {
    match (v, k)
    case (Obj(members), Name(n)) => (match Lookup(members, n) case None => Err(KeyError) case Some(x) => Ok(x))
    case (Obj(_), Index(_)) => Err(KeyError)
    case (Arr(items), Index(i)) => if i < |items| then Ok(items[i]) else Err(IndexError)
    case (Str(s), Index(i)) => if i < |s| then Ok(Str([s[i]])) else Err(IndexError)
    case _ => Err(TypeError)
  }

  /** `v[k0][k1]...`: the first failing subscript raises. */
  function SubscriptPath(v: Json, keys: seq<Key>): (r: Result<Json, PyError>)
    ensures |keys| == 1 ==> r == Subscript(v, keys[0])
    decreases |keys|
  {
    if |keys| == 0 then Ok(v)
    else
      var next :- Subscript(v, keys[0]);
      SubscriptPath(next, keys[1..])
  }

  /** Following a path in two parts is following the first part, then the
      second from where it led. */
  lemma {:induction false} SubscriptPathAppend(v: Json, a: seq<Key>, b: seq<Key>)
    ensures SubscriptPath(v, a + b) == match SubscriptPath(v, a)
                                       case Err(e) => Err(e)
                                       case Ok(w) => SubscriptPath(w, b)
    decreases |a|
  {
    if |a| == 0 {
      assert a + b == b;
    } else {
      assert (a + b)[0] == a[0] && (a + b)[1..] == a[1..] + b;
      match Subscript(v, a[0])
      case Err(_) =>
      case Ok(next) => SubscriptPathAppend(next, a[1..], b);
    }
  }

  /** `for x in v`: the items of a list, the keys of a dict, the characters of
      a string; numbers, booleans and `None` are not iterable. */
  function Iterate(v: Json): (r: Result<seq<Json>, PyError>)
    ensures r.Err? <==> !(v.Arr? || v.Obj? || v.Str?)
    ensures v.Arr? ==> r == Ok(v.items)
    ensures v.Obj? ==> r.Ok? && |r.value| == |v.members|
                       && forall i :: 0 <= i < |v.members| ==> r.value[i] == Str(v.members[i].0)
  {
    match v
    case Arr(items) => Ok(items)
    case Obj(members) => Ok(seq(|members|, i requires 0 <= i < |members| => Str(members[i].0)))
    case Str(s) => Ok(seq(|s|, i requires 0 <= i < |s| => Str([s[i]])))
    case _ => Err(TypeError)
  }

  const ExternalIdPath: seq<Key> := [Name("ext"), Name("external-ids"), Index(0)]

  /** `imp["ext"]["external-ids"][0]` under a bare `except`: whatever fails, no
      external id. */
  function ExternalId(imp: Json): (r: Option<Json>)
    ensures r.Some? <==> SubscriptPath(imp, ExternalIdPath).Ok?
    ensures r.Some? ==> r.value == SubscriptPath(imp, ExternalIdPath).value
  {
    match SubscriptPath(imp, ExternalIdPath)
    case Ok(x) => Some(x)
    case Err(_) => None
  }

  /** What the builder reads from one impression: `imp["id"]`, which may
      raise, and the guarded external id. */
  function ReadImp(imp: Json): (r: Result<ImpView, PyError>)
    ensures r.Ok? <==> Subscript(imp, Name("id")).Ok?
    ensures r.Ok? ==> r.value == ImpView(Some(Subscript(imp, Name("id")).value), ExternalId(imp))
  {
    var id :- Subscript(imp, Name("id"));
    Ok(ImpView(Some(id), ExternalId(imp)))
  }

  function ReadImps(imps: seq<Json>): (r: Result<seq<ImpView>, PyError>)
    ensures r.Ok? <==> forall k :: 0 <= k < |imps| ==> ReadImp(imps[k]).Ok?
    ensures r.Ok? ==> |r.value| == |imps| && forall k :: 0 <= k < |imps| ==> ReadImp(imps[k]) == Ok(r.value[k])
  {
    if |imps| == 0 then Ok([])
    else
      var first :- ReadImp(imps[0]);
      assert forall k :: 1 <= k < |imps| ==> imps[k] == imps[1..][k - 1];
      var rest :- ReadImps(imps[1..]);
      Ok([first] + rest)
  }

  /** `validate_req` accepts every request. */
  function ValidateReq(req: Json): (valid: bool)
    ensures valid
  {
    true
  }

  /** `get_default_response`: the request id and one template bid per
      impression. `validate_req` never refuses, so the `None` result is
      unreachable; a missing "id" or "imp", a non-iterable "imp" or an
      impression without "id" raises. */
  function GetDefaultResponse(req: Json): (r: Result<BidResponse, PyError>)
    ensures r.Ok? <==> Subscript(req, Name("id")).Ok? && Subscript(req, Name("imp")).Ok?
                       && Iterate(Subscript(req, Name("imp")).value).Ok?
                       && ReadImps(Iterate(Subscript(req, Name("imp")).value).value).Ok?
    ensures r.Ok? ==> r.value.id == Some(Subscript(req, Name("id")).value)
    ensures r.Ok? ==> r.value.bids == Bids(ReadImps(Iterate(Subscript(req, Name("imp")).value).value).value)
  {
    assert ValidateReq(req);
    var id :- Subscript(req, Name("id"));
    var imp :- Subscript(req, Name("imp"));
    var imps :- Iterate(imp);
    var views :- ReadImps(imps);
    Ok(BidResponse(Some(id), Bids(views)))
  }

  /** The bids of a built response: ids "1".."n", each impression's id as
      `impid`, template price and creative. */
  lemma DefaultResponseBids(req: Json, imps: seq<Json>, k: int)
    requires Subscript(req, Name("imp")) == Ok(Arr(imps))
    requires GetDefaultResponse(req).Ok?
    requires 0 <= k < |imps|
    ensures var r := GetDefaultResponse(req).value;
            |r.bids| == |imps|
            && r.bids[k].id == NatToString(k + 1)
            && r.bids[k].impid == Some(Subscript(imps[k], Name("id")).value)
            && r.bids[k].price == 1.0 && r.bids[k].crid == ""
  {
    var views := ReadImps(imps).value;
    assert ReadImp(imps[k]) == Ok(views[k]);
  }

  /** An impression without external ids repeats the previous bid's. */
  lemma StickyExternalId(req: Json, imps: seq<Json>, k: int)
    requires Subscript(req, Name("imp")) == Ok(Arr(imps))
    requires GetDefaultResponse(req).Ok?
    requires 0 < k < |imps| && SubscriptPath(imps[k], ExternalIdPath).Err?
    ensures var r := GetDefaultResponse(req).value;
            r.bids[k].externalId == r.bids[k - 1].externalId
  {
    var views := ReadImps(imps).value;
    assert ReadImp(imps[k]) == Ok(views[k]);
    ExternalIdSticky(views, k);
  }

  /** The fixed-price configuration: the price is always 1.0; creatives are
      reduced to their integer ids. */
  datatype BidConfig = BidConfig(probability: Json, price: real, creatives: seq<int>)

  /** `do_config` on the loaded file's "bidProbability" and creative ids. */
  function DoConfig(bidProbability: Json, creatives: seq<int>): (c: BidConfig)
    ensures c.price == 1.0 && c.probability == bidProbability && c.creatives == creatives
  {
    BidConfig(bidProbability, 1.0, creatives)
  }

  /** `do_bid`: the default response with the configured price and the
      creatives in turn. With no creatives the first bid raises `IndexError`. */
  function DoBid(config: BidConfig, req: Json): (r: Result<BidResponse, PyError>)
    ensures GetDefaultResponse(req).Err? ==> r == Err(GetDefaultResponse(req).error)
    ensures GetDefaultResponse(req).Ok? && |GetDefaultResponse(req).value.bids| > 0 && |config.creatives| == 0
            ==> r == Err(IndexError)
    ensures GetDefaultResponse(req).Ok? ==>
              (r.Ok? <==> |config.creatives| > 0 || |GetDefaultResponse(req).value.bids| == 0)
    ensures r.Ok? ==> GetDefaultResponse(req).Ok?
                      && FixedPrice(GetDefaultResponse(req).value, config.price, config.creatives) == Some(r.value)
  {
    var resp :- GetDefaultResponse(req);
    match FixedPrice(resp, config.price, config.creatives)
    case None => Err(IndexError)
    case Some(priced) => Ok(priced)
  }

  /** A dict request with an "id" and an "imp" list of dicts that each have
      an "id" is answered by a configuration with creatives: one bid per
      impression, each at the configured price. */
  lemma WellFormedRequestBid(config: BidConfig, req: Json, imps: seq<Json>)
    requires Subscript(req, Name("id")).Ok? && Subscript(req, Name("imp")) == Ok(Arr(imps))
    requires forall k :: 0 <= k < |imps| ==> imps[k].Obj? && IsMember(imps[k], "id")
    requires |config.creatives| > 0
    ensures DoBid(config, req).Ok?
    ensures |DoBid(config, req).value.bids| == |imps|
    ensures forall k :: 0 <= k < |imps| ==> DoBid(config, req).value.bids[k].price == config.price
  {
    assert forall k :: 0 <= k < |imps| ==> ReadImp(imps[k]).Ok?;
  }

  /** Every bid is priced as configured, the first `n` bids use the `n`
      creatives in order, and bids `n` apart use the same creative. */
  lemma DoBidRoundRobin(config: BidConfig, req: Json, priced: BidResponse, k: int)
    requires DoBid(config, req) == Ok(priced)
    requires |config.creatives| > 0 && 0 <= k < |priced.bids|
    ensures priced.bids[k].price == config.price
    ensures k < |config.creatives| ==> priced.bids[k].crid == IntToString(config.creatives[k])
    ensures k + |config.creatives| < |priced.bids| ==> priced.bids[k + |config.creatives|].crid == priced.bids[k].crid
  {
    PricedRoundRobin(GetDefaultResponse(req).value, config, priced, k);
  }

  lemma PricedRoundRobin(resp: BidResponse, config: BidConfig, priced: BidResponse, k: int)
    requires FixedPrice(resp, config.price, config.creatives) == Some(priced)
    requires |config.creatives| > 0 && 0 <= k < |priced.bids|
    ensures priced.bids[k].price == config.price
    ensures k < |config.creatives| ==> priced.bids[k].crid == IntToString(config.creatives[k])
    ensures k + |config.creatives| < |priced.bids| ==> priced.bids[k + |config.creatives|].crid == priced.bids[k].crid
  {
    var n := |config.creatives|;
    RoundRobinIndex(k, n);
    var t := Turn(0, k, n);
    assert priced.bids[k].crid == IntToString(config.creatives[t]);
    if k + n < |priced.bids| {
      assert priced.bids[k + n].crid == IntToString(config.creatives[Turn(0, k + n, n)]);
    }
  }

  /** The base handler's `process_bid` answers nothing; the fixed-price handler
      bids with its configuration. */
  datatype Strategy = Base | FixedPriceBidder(config: BidConfig)

  function ProcessBid(s: Strategy, req: Json): (r: Result<Option<BidResponse>, PyError>)
    ensures s.Base? ==> r == Ok(None)
    ensures s.FixedPriceBidder? ==> (r.Ok? <==> DoBid(s.config, req).Ok?)
    ensures s.FixedPriceBidder? && r.Ok? ==> r.value == Some(DoBid(s.config, req).value)
  {
    match s
    case Base => Ok(None)
    case FixedPriceBidder(config) =>
      var resp :- DoBid(config, req);
      Ok(Some(resp))
  }

  datatype Reply = Reply(status: int, headers: seq<(string, string)>, content: string)

  const ErrorReply: Reply := Reply(204, [], "Error\n")
  const OkHeaders: seq<(string, string)> := [("Content-type", "application/json"), ("x-openrtb-version", "2.1")]

  /** `json.loads` (`None` where it raises) and `json.dumps`. */
  datatype PyCodec = PyCodec(loads: string -> Option<Json>, dumps: BidResponse -> string)

  /** `process_req`: a JSON content type is parsed (a parse failure raises),
      anything else is no request; no request, or no response from
      `process_bid`, is a 204 "Error"; a response is a 200 with its JSON text.
      A request without a Content-Type header raises `KeyError`. */
  function ProcessReq(contentType: Option<string>, body: string, s: Strategy, codec: PyCodec)
    : (r: Result<Reply, PyError>)
    ensures contentType.None? ==> r == Err(KeyError)
    ensures contentType.Some? && !StartsWith(contentType.value, "application/json") ==> r == Ok(ErrorReply)
    ensures contentType.Some? && StartsWith(contentType.value, "application/json") && codec.loads(body).None?
            ==> r == Err(ValueError)
    ensures s.Base? && r.Ok? ==> r.value == ErrorReply
    ensures r.Ok? && r.value.status == 200 ==>
              contentType.Some? && StartsWith(contentType.value, "application/json")
              && codec.loads(body).Some? && codec.loads(body).value != Null
              && ProcessBid(s, codec.loads(body).value).Ok?
              && ProcessBid(s, codec.loads(body).value).value.Some?
              && r.value == Reply(200, OkHeaders, codec.dumps(ProcessBid(s, codec.loads(body).value).value.value))
    ensures r.Ok? ==> r.value.status == 200 || r.value == ErrorReply
    // A parsed, non-null request is handed to `process_bid`: an exception it
    // raises leaves `process_req`, no response is 204, and a response is 200.
    ensures contentType.Some? && StartsWith(contentType.value, "application/json")
            && codec.loads(body).Some? && codec.loads(body).value != Null ==>
              var bid := ProcessBid(s, codec.loads(body).value);
              (bid.Err? ==> r == Err(bid.error))
              && (bid.Ok? && bid.value.None? ==> r == Ok(ErrorReply))
              && (bid.Ok? && bid.value.Some? ==> r == Ok(Reply(200, OkHeaders, codec.dumps(bid.value.value))))
    // The base handler answers 204 to every request it can read.
    ensures s.Base? && contentType.Some? && (!StartsWith(contentType.value, "application/json") || codec.loads(body).Some?) ==>
              r == Ok(ErrorReply)
  {
    if contentType.None? then Err(KeyError)
    else
      var req :-
        if StartsWith(contentType.value, "application/json") then
          (match codec.loads(body) case None => Err(ValueError) case Some(j) => Ok(j))
        else Ok(Null);
      if req.Null? then Ok(ErrorReply)
      else
        var resp :- ProcessBid(s, req);
        match resp
        case None => Ok(ErrorReply)
        case Some(bidResponse) => Ok(Reply(200, OkHeaders, codec.dumps(bidResponse)))
  }

  /** A JSON `null` body is no request: 204, whatever the strategy. */
  lemma NullBodyRejected(contentType: string, body: string, s: Strategy, codec: PyCodec)
    requires StartsWith(contentType, "application/json") && codec.loads(body) == Some(Null)
    ensures ProcessReq(Some(contentType), body, s, codec) == Ok(ErrorReply)
  {
  }

  /** A fixed-price bid that succeeds is answered 200 with the priced response. */
  lemma FixedPriceAnswered(contentType: string, body: string, config: BidConfig, codec: PyCodec, req: Json)
    requires StartsWith(contentType, "application/json") && codec.loads(body) == Some(req) && req != Null
    requires DoBid(config, req).Ok?
    ensures ProcessReq(Some(contentType), body, FixedPriceBidder(config), codec)
            == Ok(Reply(200, OkHeaders, codec.dumps(DoBid(config, req).value)))
  {
  }

  // ---------------------------------------------------------------- Pacer

  /** The top-up request `BudgetPacer.start` prepares and `http_request` posts. */
  datatype PacerRequest = PacerRequest(url: string, headers: seq<(string, string)>, body: string)

  function PacerStart(bankerHost: string, bankerPort: int, amount: int, account: string): (p: PacerRequest)
    ensures p.body == BalanceBody(amount) && p.headers == [("Accept", "application/json")]
    ensures p.url == "http://" + bankerHost + ":" + IntToString(bankerPort) + BalancePath(account)
  {
    PacerRequest("http://" + bankerHost + ":" + IntToString(bankerPort) + BalancePath(account),
                 [("Accept", "application/json")], BalanceBody(amount))
  }

  /** For one banker, the request names the account and the amount: distinct
      accounts or amounts give distinct requests. */
  lemma PacerRequestInjective(host: string, port: int, a1: int, a2: int, acc1: string, acc2: string)
    requires PacerStart(host, port, a1, acc1) == PacerStart(host, port, a2, acc2)
    ensures a1 == a2 && acc1 == acc2
  {
    var prefix := "http://" + host + ":" + IntToString(port);
    assert PacerStart(host, port, a1, acc1).url == prefix + BalancePath(acc1);
    assert BalancePath(acc1) == PacerStart(host, port, a1, acc1).url[|prefix|..];
    assert BalancePath(acc2) == PacerStart(host, port, a2, acc2).url[|prefix|..];
    BalanceRequestInjective(a1, a2, acc1, acc2);
  }
}
