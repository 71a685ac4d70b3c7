/** `JsBidder`: the node.js example bid agent.

    Modelled: the key-path reader `jsonMarshaller`, request validation and the
    response builder, the fixed-price strategy and its default configuration,
    the request handler (`sendOk`, `sendErr`, `processBid`) and its verb
    dispatcher, and the budget pacer's request. JavaScript values are `Json`
    values, `undefined` is `None`, and a thrown `TypeError` or `SyntaxError`
    is an error result. Sockets, timers and file reads are not modelled. */
module JsBidder {
  import opened Wrappers
  import opened Json
  import opened Text
  import opened OpenRtbResponse

  datatype JsError = TypeError | SyntaxError

  /** A property key: a name, or an array index. */
  datatype Key = Name(name: string) | Index(index: nat)

  /** `v[k]`: reading a property of `null` throws; a missing property is
      `undefined`; a string is indexed by character. */
  function Property(v: Json, k: Key): (r: Result<Option<Json>, JsError>)
    ensures r.Err? <==> v.Null?
    ensures v.Obj? && k.Name? ==> r == Ok(Member(v, k.name))
    ensures v.Arr? && k.Index? ==> r == Ok(if k.index < |v.items| then Some(v.items[k.index]) else None)
  {
    match (v, k)
    case (Null, _) => Err(TypeError)
    case (Obj(members), Name(n)) => Ok(Lookup(members, n))
    case (Obj(members), Index(i)) => Ok(Lookup(members, NatToString(i)))
    case (Arr(items), Index(i)) => Ok(if i < |items| then Some(items[i]) else None)
    case (Str(s), Index(i)) => Ok(if i < |s| then Some(Str([s[i]])) else None)
    case _ => Ok(None)
  }

  /** `jsonMarshaller`: follows the keys in order and stops at the first
      `undefined`. */
  function Marshal(v: Json, keys: seq<Key>): (r: Result<Option<Json>, JsError>)
    ensures r.Err? ==> r.error == TypeError
    ensures |keys| == 1 ==> r == Property(v, keys[0])
    ensures |keys| > 0 && v.Null? ==> r == Err(TypeError)
    decreases |keys|
  {
    if |keys| == 0 then Ok(Some(v))
    else
      var next :- Property(v, keys[0]);
      if next.None? then Ok(None) else Marshal(next.value, keys[1..])
  }

  /** Following a path in two parts is following the first part, then the
      second from where it led. */
  lemma {:induction false} MarshalAppend(v: Json, a: seq<Key>, b: seq<Key>)
    ensures Marshal(v, a + b) == match Marshal(v, a)
                                 case Err(e) => Err(e)
                                 case Ok(None) => Ok(None)
                                 case Ok(Some(w)) => Marshal(w, b)
    decreases |a|
  {
    if |a| == 0 {
      assert a + b == b;
    } else {
      assert (a + b)[0] == a[0] && (a + b)[1..] == a[1..] + b;
      match Property(v, a[0])
      case Err(_) =>
      case Ok(next) =>
        if next.Some? {
          MarshalAppend(next.value, a[1..], b);
        }
    }
  }

  /** An object path that exists is read back; a missing first key is `undefined`. */
  lemma MarshalObjectPath(name: string, inner: Json, rest: seq<(string, Json)>)
    ensures Marshal(Obj([(name, inner)] + rest), [Name(name)]) == Ok(Some(inner))
    ensures Marshal(Obj([]), [Name(name), Index(0)]) == Ok(None)
  {
    var v := Obj([(name, inner)] + rest);
    assert Property(v, Name(name)) == Ok(Some(inner));
    assert Marshal(inner, []) == Ok(Some(inner));
  }

  /** JavaScript's `typeof` on a JSON value: `null` and arrays are objects. */
  function TypeOf(v: Json): string {
    match v
    case Bool(_) => "boolean"
    case Int(_) => "number"
    case Str(_) => "string"
    case _ => "object"
  }

  /** `validateReq`: defined, and `typeof` says "object". */
  function ValidateReq(req: Option<Json>): (valid: bool)
    ensures valid <==> req.Some? && TypeOf(req.value) == "object"
    ensures valid ==> req.value.Null? || req.value.Arr? || req.value.Obj?
  {
    req.Some? && (req.value.Null? || req.value.Arr? || req.value.Obj?)
  }

  /** The values a `for ... in` over `req["imp"]` visits: array elements,
      object member values, string characters; nothing for anything else. */
  function ForInValues(v: Option<Json>): seq<Json> {
    match v
    case Some(Arr(items)) => items
    case Some(Obj(members)) => seq(|members|, i requires 0 <= i < |members| => members[i].1)
    case Some(Str(s)) => seq(|s|, i requires 0 <= i < |s| => Str([s[i]]))
    case _ => []
  }

  /** What the builder reads from one impression: `imp["id"]` and the first of
      `imp.ext["external-ids"]`. */
  function ReadImp(imp: Json): (r: Result<ImpView, JsError>)
    ensures imp.Null? ==> r == Err(TypeError)
    ensures imp.Obj? && Member(imp, "ext").None? ==> r == Ok(ImpView(Member(imp, "id"), None))
    ensures r.Ok? ==> r.value.id == Property(imp, Name("id")).value
    // The external id is the first of "ext"."external-ids" when that is reachable.
    ensures r.Ok? ==> Marshal(imp, [Name("ext"), Name("external-ids"), Index(0)]) == Ok(r.value.externalId)
    ensures imp.Obj? && Member(imp, "ext").Some? && Member(imp, "ext").value.Obj? ==>
              var ids := Member(Member(imp, "ext").value, "external-ids");
              ids.Some? && ids.value.Arr? && |ids.value.items| > 0 ==>
                r == Ok(ImpView(Member(imp, "id"), Some(ids.value.items[0])))
    ensures imp.Obj? && Member(imp, "ext").Some? && Member(imp, "ext").value.Obj? ==>
              Member(Member(imp, "ext").value, "external-ids").None? ==> r == Ok(ImpView(Member(imp, "id"), None))
  {
    var id :- Property(imp, Name("id"));
    var externalId :- Marshal(imp, [Name("ext"), Name("external-ids"), Index(0)]);
    Ok(ImpView(id, externalId))
  }

  /** An impression the builder can read: not `null`, and neither its "ext"
      nor, in an object "ext", its "external-ids" is `null`. */
  predicate Readable(imp: Json) {
    !imp.Null? && Member(imp, "ext") != Some(Null)
    && (Member(imp, "ext").Some? && Member(imp, "ext").value.Obj? ==>
          Member(Member(imp, "ext").value, "external-ids") != Some(Null))
  }

  /** Reading an impression throws exactly when it, its "ext" or that
      object's "external-ids" is `null`. */
  lemma ReadImpOkIff(imp: Json)
    ensures ReadImp(imp).Ok? <==> Readable(imp)
  {
    var path := [Name("ext"), Name("external-ids"), Index(0)];
    assert path[1..] == [Name("external-ids"), Index(0)] && path[1..][1..] == [Index(0)];
    if imp.Obj? {
      match Member(imp, "ext")
      case None =>
      case Some(ext) =>
        assert Marshal(imp, path) == Marshal(ext, path[1..]);
        if ext.Obj? {
          match Member(ext, "external-ids")
          case None =>
          case Some(ids) =>
            assert Marshal(ext, path[1..]) == Marshal(ids, path[1..][1..]);
        }
    }
  }

  function ReadImps(imps: seq<Json>): (r: Result<seq<ImpView>, JsError>)
    ensures r.Ok? ==> |r.value| == |imps| && forall k :: 0 <= k < |imps| ==> ReadImp(imps[k]) == Ok(r.value[k])
    ensures r.Err? <==> exists k :: 0 <= k < |imps| && ReadImp(imps[k]).Err?
  {
    if |imps| == 0 then Ok([])
    else
      var first :- ReadImp(imps[0]);
      var rest :- ReadImps(imps[1..]);
      assert forall k :: 1 <= k < |imps| ==> imps[k] == imps[1..][k - 1];
      Ok([first] + rest)
  }

  /** `getResponse`: an invalid request gets the untouched template; a valid
      one gets its id and one bid per impression. Reading from a `null`
      request or impression throws. */
  function GetResponse(req: Option<Json>): (r: Result<BidResponse, JsError>)
    ensures !ValidateReq(req) ==> r == Ok(TemplateResponse)
    ensures ValidateReq(req) && req.value.Null? ==> r == Err(TypeError)
    ensures ValidateReq(req) && !req.value.Null? ==>
              (r.Ok? <==> ReadImps(ForInValues(Property(req.value, Name("imp")).value)).Ok?)
    ensures ValidateReq(req) && r.Ok? ==>
              r.value.id == Property(req.value, Name("id")).value
              && ReadImps(ForInValues(Property(req.value, Name("imp")).value)).Ok?
              && r.value.bids == Bids(ReadImps(ForInValues(Property(req.value, Name("imp")).value)).value)
  {
    if !ValidateReq(req) then Ok(TemplateResponse)
    else if req.value.Null? then Err(TypeError)
    else
      var v := req.value;
      var views :- ReadImps(ForInValues(Property(v, Name("imp")).value));
      Ok(BidResponse(Property(v, Name("id")).value, Bids(views)))
  }

  /** The example impressions: the first carries external id 7, the second none. */
  const ExampleImp1: Json := Obj([("ext", Obj([("external-ids", Arr([Int(7)]))])), ("id", Str("a"))])
  const ExampleImp2: Json := Obj([("id", Str("b"))])

  lemma ExampleImp1Read()
    ensures ReadImp(ExampleImp1) == Ok(ImpView(Some(Str("a")), Some(Int(7))))
  {
    var ids := Arr([Int(7)]);
    var ext := Obj([("external-ids", ids)]);
    assert "ext"[0] != "id"[0];
    LookupAt(ExampleImp1.members, 1);
    var path := [Name("ext"), Name("external-ids"), Index(0)];
    assert path[1..] == [Name("external-ids"), Index(0)] && path[1..][1..] == [Index(0)];
    assert Marshal(ids, path[1..][1..]) == Ok(Some(Int(7))) by {
      assert Property(ids, Index(0)) == Ok(Some(Int(7)));
      assert Marshal(Int(7), []) == Ok(Some(Int(7)));
    }
    assert Marshal(ext, path[1..]) == Ok(Some(Int(7))) by {
      assert Property(ext, Name("external-ids")) == Ok(Some(ids));
    }
    assert Marshal(ExampleImp1, path) == Ok(Some(Int(7))) by {
      assert Property(ExampleImp1, Name("ext")) == Ok(Some(ext));
    }
  }

  lemma ExampleImp2Read()
    ensures ReadImp(ExampleImp2) == Ok(ImpView(Some(Str("b")), None))
  {
    var path := [Name("ext"), Name("external-ids"), Index(0)];
    assert Marshal(ExampleImp2, path) == Ok(None) by {
      assert Property(ExampleImp2, Name("ext")) == Ok(None);
    }
  }

  lemma ExampleImpsRead()
    ensures ReadImps([ExampleImp1, ExampleImp2])
            == Ok([ImpView(Some(Str("a")), Some(Int(7))), ImpView(Some(Str("b")), None)])
  {
    var v1 := ImpView(Some(Str("a")), Some(Int(7)));
    var v2 := ImpView(Some(Str("b")), None);
    ExampleImp1Read();
    ExampleImp2Read();
    var imps := [ExampleImp1, ExampleImp2];
    assert imps[1..] == [ExampleImp2];
    assert [ExampleImp2][0] == ExampleImp2 && [ExampleImp2][1..] == [];
    assert ReadImps([]) == Ok([]);
    assert ReadImps([ExampleImp2]) == Ok([v2] + []);
    assert [v2] + [] == [v2] && [v1] + [v2] == [v1, v2];
  }

  /** A request with impressions [{"id": "a", "ext": {"external-ids": [7]}}, {"id": "b"}]
      is answered with bids "1" and "2", both carrying external id 7. */
  lemma StickyExternalIdExample()
    ensures var req := Obj([("id", Str("r")), ("imp", Arr([ExampleImp1, ExampleImp2]))]);
            var r := GetResponse(Some(req));
            r.Ok? && |r.value.bids| == 2
            && r.value.bids[0].externalId == Some(Int(7)) && r.value.bids[1].externalId == Some(Int(7))
  {
    var req := Obj([("id", Str("r")), ("imp", Arr([ExampleImp1, ExampleImp2]))]);
    assert "id"[0] != "imp"[1];
    LookupAt(req.members, 1);
    var views := [ImpView(Some(Str("a")), Some(Int(7))), ImpView(Some(Str("b")), None)];
    ExampleImpsRead();
    assert StickyId(views, 1) == Some(Int(7));
  }

  /** The fixed-price configuration. `creatives` is `None` when a config file
      lacks them. */
  datatype BidConfig = BidConfig(probability: Option<real>, creatives: Option<seq<int>>, price: real)

  /** The parsed configuration file, as far as it is read. */
  datatype ConfigFile = ConfigFile(bidProbability: Option<real>, creatives: Option<seq<int>>)

  /** `doConfig`: the file's values, or probability 0.5 and the single creative
      1 when there is no file; the price is 1.0 either way. */
  function DoConfig(file: Option<ConfigFile>): (c: BidConfig)
    ensures c.price == 1.0
    ensures file.None? ==> c.probability == Some(0.5) && c.creatives == Some([1])
    ensures file.Some? ==> c.probability == file.value.bidProbability && c.creatives == file.value.creatives
  {
    match file
    case None => BidConfig(Some(0.5), Some([1]), 1.0)
    case Some(f) => BidConfig(f.bidProbability, f.creatives, 1.0)
  }

  /** `doBid`: the response for the request with the configured price and
      creatives. Missing or empty creatives throw as soon as there is a bid. */
  function DoBid(config: BidConfig, req: Option<Json>): (r: Result<BidResponse, JsError>)
    ensures r.Ok? ==> GetResponse(req).Ok?
    ensures GetResponse(req).Ok? ==>
              (r.Ok? <==> |GetResponse(req).value.bids| == 0
                          || (config.creatives.Some? && |config.creatives.value| > 0))
    ensures r.Ok? && config.creatives.Some? ==>
              FixedPrice(GetResponse(req).value, config.price, config.creatives.value) == Some(r.value)
  {
    var resp :- GetResponse(req);
    if |resp.bids| == 0 then Ok(resp)
    else if config.creatives.None? then Err(TypeError)
    else match FixedPrice(resp, config.price, config.creatives.value)
      case None => Err(TypeError)
      case Some(priced) => Ok(priced)
  }

  /** A request object whose "imp" array holds only readable impressions is
      answered by a configuration with creatives: one bid per impression,
      each at the configured price. */
  lemma WellFormedRequestBid(config: BidConfig, req: Json, imps: seq<Json>)
    requires req.Obj? && Member(req, "imp") == Some(Arr(imps))
    requires forall k :: 0 <= k < |imps| ==> Readable(imps[k])
    requires config.creatives.Some? && |config.creatives.value| > 0
    ensures DoBid(config, Some(req)).Ok?
    ensures |DoBid(config, Some(req)).value.bids| == |imps|
    ensures forall k :: 0 <= k < |imps| ==> DoBid(config, Some(req)).value.bids[k].price == config.price
  {
    forall k | 0 <= k < |imps|
      ensures ReadImp(imps[k]).Ok?
    {
      ReadImpOkIff(imps[k]);
    }
    assert ForInValues(Property(req, Name("imp")).value) == imps;
  }

  /** Even an invalid request, a body that parses to a number, string or
      boolean, is answered: the template bid, priced. */
  lemma InvalidRequestAnswered(config: BidConfig, req: Json)
    requires config.creatives == Some([1])
    requires req.Int? || req.Str? || req.Bool?
    ensures DoBid(config, Some(req)) == Ok(BidResponse(Some(Str("1")), [TemplateBid.(price := config.price, crid := "1")]))
  {
    assert GetResponse(Some(req)) == Ok(TemplateResponse);
    var f := FixedPrice(TemplateResponse, config.price, [1]);
    assert f.Some? && |f.value.bids| == 1;
    assert Turn(0, 0, 1) == 0;
    assert f.value.bids[0] == TemplateBid.(price := config.price, crid := IntToString(1));
    assert IntToString(1) == "1";
    assert f.value.id == Some(Str("1"));
    assert f.value.bids == [TemplateBid.(price := config.price, crid := "1")];
    assert f == Some(BidResponse(Some(Str("1")), [TemplateBid.(price := config.price, crid := "1")]));
  }

  // ---------------------------------------------------------------- Handler

  /** A request handler: the bidder it serves (none for the ad-server
      listeners) and the body and response it accumulates. */
  datatype Handler = Handler(bidder: Option<BidConfig>, body: string, response: string)

  datatype Reply = Reply(status: int, headers: seq<(string, string)>, content: string)

  /** What handling a request does: reply and move on, or throw. */
  datatype Outcome = Replied(reply: Reply, handler: Handler) | Threw(error: JsError)

  /** JSON text in and out; `parse` is `None` where `JSON.parse` throws. */
  datatype JsCodec = JsCodec(parse: string -> Option<Json>, stringify: BidResponse -> string)

  /** `sendErr`: 204 with no content; body and response are cleared. */
  function SendErr(h: Handler): (o: Outcome)
    ensures o.Replied? && o.reply == Reply(204, [], "")
    ensures o.handler == h.(body := "", response := "")
  {
    Replied(Reply(204, [], ""), h.(body := "", response := ""))
  }

  const OkHeaders: seq<(string, string)> := [("Content-Type", "application/json"), ("x-openrtb-version", "2.1")]

  /** `sendOk`: 200 with the response and a newline; body and response are cleared. */
  function SendOk(h: Handler): (o: Outcome)
    ensures o.Replied? && o.reply == Reply(200, OkHeaders, h.response + "\n")
    ensures o.handler == h.(body := "", response := "")
  {
    Replied(Reply(200, OkHeaders, h.response + "\n"), h.(body := "", response := ""))
  }

  /** `processBid`: a bidder turns the body into the response text; without
      a bidder nothing changes. It never reports failure, it throws. */
  function ProcessBid(h: Handler, codec: JsCodec): (r: Result<Handler, JsError>)
    ensures h.bidder.None? ==> r == Ok(h)
    ensures h.bidder.Some? && codec.parse(h.body).None? ==> r == Err(SyntaxError)
    ensures r.Ok? && h.bidder.Some? ==>
              codec.parse(h.body).Some?
              && DoBid(h.bidder.value, Some(codec.parse(h.body).value)).Ok?
              && r.value == h.(response := codec.stringify(DoBid(h.bidder.value, Some(codec.parse(h.body).value)).value))
  {
    if h.bidder.None? then Ok(h)
    else match codec.parse(h.body)
      case None => Err(SyntaxError)
      case Some(req) =>
        var resp :- DoBid(h.bidder.value, Some(req));
        Ok(h.(response := codec.stringify(resp)))
  }

  /** `onPost`, `onPut` and (intended) `onGet`: process, then answer 200. */
  function OnRequest(h: Handler, codec: JsCodec): (o: Outcome)
    ensures ProcessBid(h, codec).Err? <==> o.Threw?
    ensures o.Replied? ==> o == SendOk(ProcessBid(h, codec).value)
  {
    match ProcessBid(h, codec)
    case Err(e) => Threw(e)
    case Ok(h') => SendOk(h')
  }

  /** The body the `data` events build up, chunk after chunk. */
  function Concat(chunks: seq<string>): (body: string)
    ensures |chunks| > 0 ==> chunks[0] <= body
    ensures |chunks| == 1 ==> body == chunks[0]
  {
    if |chunks| == 0 then "" else chunks[0] + Concat(chunks[1..])
  }

  /** Chunks received in two bursts build the same body as all at once. */
  lemma {:induction false} ConcatAppend(a: seq<string>, b: seq<string>)
    ensures Concat(a + b) == Concat(a) + Concat(b)
  {
    if |a| == 0 {
      assert a + b == b;
    } else {
      assert (a + b)[0] == a[0] && (a + b)[1..] == a[1..] + b;
      ConcatAppend(a[1..], b);
    }
  }

  /** `reqDispatcher` as written. POST and PUT collect the body and then call
      their handler (a stream error answers 204 instead); GET calls
      `self.onget`, which does not exist, so it throws a `TypeError`; any other
      verb gets 204. */
  function DispatchAsWritten(h: Handler, verb: string, chunks: seq<string>, streamError: bool, codec: JsCodec)
    : (o: Outcome)
    ensures verb == "GET" ==> o == Threw(TypeError)
    ensures verb != "GET" ==> o == Dispatch(h, verb, chunks, streamError, codec)
  {
    if verb == "POST" || verb == "PUT" then
      var h' := h.(body := h.body + Concat(chunks));
      if streamError then SendErr(h') else OnRequest(h', codec)
    else if verb == "GET" then Threw(TypeError)
    else SendErr(h)
  }

  /** `reqDispatcher` with GET routed to `onGet`, as its call table means. */
  function Dispatch(h: Handler, verb: string, chunks: seq<string>, streamError: bool, codec: JsCodec): (o: Outcome)
    ensures verb != "POST" && verb != "PUT" && verb != "GET" ==> o == SendErr(h)
    ensures verb == "GET" ==> o == OnRequest(h, codec)
    ensures (verb == "POST" || verb == "PUT") && streamError ==> o.Replied? && o.reply.status == 204
    ensures (verb == "POST" || verb == "PUT") && !streamError ==>
              o == OnRequest(h.(body := h.body + Concat(chunks)), codec)
  {
    if verb == "POST" || verb == "PUT" then
      var h' := h.(body := h.body + Concat(chunks));
      if streamError then SendErr(h') else OnRequest(h', codec)
    else if verb == "GET" then OnRequest(h, codec)
    else SendErr(h)
  }

  /** The ad-server listeners (no bidder) answer every GET by throwing as
      written, where the intended dispatch answers 200 with an empty line. */
  lemma GetOnListener(codec: JsCodec)
    ensures DispatchAsWritten(Handler(None, "", ""), "GET", [], false, codec) == Threw(TypeError)
    ensures Dispatch(Handler(None, "", ""), "GET", [], false, codec)
            == Replied(Reply(200, OkHeaders, "\n"), Handler(None, "", ""))
  {
  }

  /** A bid POST whose body parses and can be priced is answered 200 with the
      stringified response, and leaves the handler clear for the next request. */
  lemma PostAnswered(config: BidConfig, chunks: seq<string>, codec: JsCodec)
    requires codec.parse(Concat(chunks)).Some?
    requires DoBid(config, Some(codec.parse(Concat(chunks)).value)).Ok?
    ensures var o := Dispatch(Handler(Some(config), "", ""), "POST", chunks, false, codec);
            o.Replied? && o.handler == Handler(Some(config), "", "")
            && o.reply == Reply(200, OkHeaders,
                                codec.stringify(DoBid(config, Some(codec.parse(Concat(chunks)).value)).value) + "\n")
  {
    assert "" + Concat(chunks) == Concat(chunks);
  }

  // ---------------------------------------------------------------- Pacer

  /** The banker request `paceRequest` sends. */
  datatype PacerRequest = PacerRequest(host: string, port: int, path: string, verb: string,
                                       headers: seq<(string, string)>, body: string)

  /** `BudgetPacer` and `paceRequest`: POST `{"USD/1M": amount}` to
      `/v1/accounts/<account>/balance`, with the body's length as Content-Length. */
  function PaceRequest(bankerIp: string, bankerPort: int, amount: int, accountName: string): (r: PacerRequest)
    ensures r.path == BalancePath(accountName) && r.body == BalanceBody(amount) && r.verb == "POST"
    ensures r.headers == [("Accept", "application/json"), ("Content-Length", NatToString(|r.body|))]
  {
    var body := BalanceBody(amount);
    PacerRequest(bankerIp, bankerPort, BalancePath(accountName), "POST",
                 [("Accept", "application/json"), ("Content-Length", NatToString(|body|))], body)
  }
}
