/** `OpenRtbResponse`: the minimal OpenRTB response builder shared by the
    three example bid agents (JavaScript, tornado Python, httpapi Python).

    Each agent copies its template bid into a working bid `new_bid`, and for
    every impression of the request sets the bid id (a counter from "1"), the
    impression id and, when the impression carries one, the first of its
    "external-ids"; a copy of the working bid is appended to the single seat.
    Because the working bid is reused, an impression without external ids
    inherits the previous impression's. The fixed-price strategy then sets
    every price and assigns creatives round-robin. What differs between the
    agents (how a property is read, what fails) is in their own modules. */
module OpenRtbResponse {
  import opened Wrappers
  import opened Json
  import opened Text

  /** One bid of the response. Values the request may lack are `Option`s;
      prices and priorities are the agents' constants, exact as reals. */
  datatype Bid = Bid(id: string, impid: Option<Json>, price: real, crid: string, priority: real,
                     externalId: Option<Json>)

  /** A response with one seat, as all three agents build it. */
  datatype BidResponse = BidResponse(id: Option<Json>, bids: seq<Bid>)

  /** The template bid: id "1", impid "1", price 1.0, no creative, priority 1.0. */
  const TemplateBid: Bid := Bid("1", Some(Str("1")), 1.0, "", 1.0, None)

  /** The template response: id "1" and the template bid. */
  const TemplateResponse: BidResponse := BidResponse(Some(Str("1")), [TemplateBid])

  /** What the builder reads from one impression: its id and its first
      external id, each possibly absent. */
  datatype ImpView = ImpView(id: Option<Json>, externalId: Option<Json>)

  /** The external id the working bid holds after impression `k`: that of the
      last impression up to `k` that has one, or the template's (none). */
  function StickyId(imps: seq<ImpView>, k: int): Option<Json>
    requires k < |imps|
    decreases k
  {
    if k < 0 then None
    else if imps[k].externalId.Some? then imps[k].externalId
    else StickyId(imps, k - 1)
  }

  /** The loop over the impressions, `done` impressions in, with the working
      bid `work`. */
  function BuildBids(imps: seq<ImpView>, work: Bid, done: nat): (bids: seq<Bid>)
    decreases |imps|
  {
    if |imps| == 0 then []
    else
      var externalId := if imps[0].externalId.Some? then imps[0].externalId else work.externalId;
      var bid := work.(id := NatToString(done + 1), impid := imps[0].id, externalId := externalId);
      [bid] + BuildBids(imps[1..], bid, done + 1)
  }

  /** The bids for a request's impressions: one per impression, in order,
      with ids "1".."n", the impression's id, and the sticky external id;
      the template's price, creative and priority are kept. */
  function Bids(imps: seq<ImpView>): (bids: seq<Bid>)
    ensures |bids| == |imps|
    ensures forall k :: 0 <= k < |imps| ==>
              bids[k] == Bid(NatToString(k + 1), imps[k].id, 1.0, "", 1.0, StickyId(imps, k))
  {
    BuildBidsSpec(imps, [], TemplateBid);
    assert [] + imps == imps;
    BuildBids(imps, TemplateBid, 0)
  }

  /** The loop invariant of `BuildBids`, stated over the impressions already
      seen (`seen`) and those still to come. */
  lemma {:induction false} BuildBidsSpec(imps: seq<ImpView>, seen: seq<ImpView>, work: Bid)
    requires work.price == 1.0 && work.crid == "" && work.priority == 1.0
    requires |seen| > 0 ==> work.externalId == StickyId(seen, |seen| - 1)
    requires |seen| == 0 ==> work.externalId == None
    ensures var bids := BuildBids(imps, work, |seen|);
            |bids| == |imps| &&
            forall k :: 0 <= k < |imps| ==>
              bids[k] == Bid(NatToString(|seen| + k + 1), imps[k].id, 1.0, "", 1.0, StickyId(seen + imps, |seen| + k))
    decreases |imps|
  {
    if |imps| > 0 {
      var all := seen + imps;
      var externalId := if imps[0].externalId.Some? then imps[0].externalId else work.externalId;
      var bid := work.(id := NatToString(|seen| + 1), impid := imps[0].id, externalId := externalId);
      var seen' := seen + [imps[0]];
      StickyStep(imps, seen, work.externalId);
      assert seen' + imps[1..] == all;
      BuildBidsSpec(imps[1..], seen', bid);
      var bids := BuildBids(imps, work, |seen|);
      var rest := BuildBids(imps[1..], bid, |seen'|);
      assert bids == [bid] + rest;
      forall k | 0 <= k < |imps|
        ensures bids[k] == Bid(NatToString(|seen| + k + 1), imps[k].id, 1.0, "", 1.0, StickyId(all, |seen| + k))
      {
        if k == 0 {
          assert bids[0] == bid;
        } else {
          assert bids[k] == rest[k - 1];
          assert imps[1..][k - 1] == imps[k] && |seen'| + (k - 1) == |seen| + k;
        }
      }
    }
  }

  /** One step of the loop: the working bid's external id after impression
      `|seen|` is the sticky id there, both in the whole and in the prefix
      that ends with it. */
  lemma StickyStep(imps: seq<ImpView>, seen: seq<ImpView>, previous: Option<Json>)
    requires |imps| > 0
    requires |seen| > 0 ==> previous == StickyId(seen, |seen| - 1)
    requires |seen| == 0 ==> previous == None
    ensures var externalId := if imps[0].externalId.Some? then imps[0].externalId else previous;
            externalId == StickyId(seen + imps, |seen|)
            && externalId == StickyId(seen + [imps[0]], |seen|)
  {
    var all := seen + imps;
    StickyPrefix(all, seen, |seen| - 1);
    assert all[|seen|] == imps[0];
    StickyPrefix(all, seen + [imps[0]], |seen|);
  }

  /** `StickyId` looks only backwards: a prefix agrees with the whole. */
  lemma {:induction false} StickyPrefix(all: seq<ImpView>, prefix: seq<ImpView>, k: int)
    requires prefix <= all && k < |prefix|
    ensures StickyId(prefix, k) == StickyId(all, k)
    decreases k
  {
    if k >= 0 {
      StickyPrefix(all, prefix, k - 1);
    }
  }

  /** An impression that has an external id puts it on its own bid, and one
      that has none repeats the previous bid's (none for the first). */
  lemma ExternalIdSticky(imps: seq<ImpView>, k: int)
    requires 0 <= k < |imps|
    ensures imps[k].externalId.Some? ==> Bids(imps)[k].externalId == imps[k].externalId
    ensures imps[k].externalId.None? && k > 0 ==> Bids(imps)[k].externalId == Bids(imps)[k - 1].externalId
    ensures imps[k].externalId.None? && k == 0 ==> Bids(imps)[k].externalId.None?
  {
  }

  /** Bid ids never repeat within a response. */
  lemma BidIdsDistinct(imps: seq<ImpView>, j: int, k: int)
    requires 0 <= j < k < |imps|
    ensures Bids(imps)[j].id != Bids(imps)[k].id
  {
    if Bids(imps)[j].id == Bids(imps)[k].id {
      NatToStringInjective(j + 1, k + 1);
    }
  }

  /** One step of `crndx = (crndx + 1) % n`, for an index below `n`. */
  function Next(crndx: nat, n: nat): (next: nat)
    requires crndx < n
    ensures next < n && next == (crndx + 1) % n
  {
    if crndx + 1 < n then crndx + 1 else 0
  }

  /** The creative index after `k` steps from `crndx`. */
  function Turn(crndx: nat, k: nat, n: nat): (t: nat)
    requires crndx < n
    ensures t < n
    decreases k
  {
    if k == 0 then crndx else Turn(Next(crndx, n), k - 1, n)
  }

  lemma {:induction false} TurnCompose(c: nat, a: nat, b: nat, n: nat)
    requires c < n
    ensures Turn(c, a + b, n) == Turn(Turn(c, a, n), b, n)
    decreases a
  {
    if a > 0 {
      TurnCompose(Next(c, n), a - 1, b, n);
    }
  }

  lemma {:induction false} TurnCounts(c: nat, k: nat, n: nat)
    requires c + k < n
    ensures Turn(c, k, n) == c + k
    decreases k
  {
    if k > 0 {
      TurnCounts(c + 1, k - 1, n);
    }
  }

  /** From the start, the first `n` steps visit 0..n-1 in order, and every
      `n` steps the index comes back: the `k`-th bid gets creative `k mod n`. */
  lemma RoundRobinIndex(k: nat, n: nat)
    requires n > 0
    ensures k < n ==> Turn(0, k, n) == k
    ensures Turn(0, k + n, n) == Turn(0, k, n)
  {
    if k < n {
      TurnCounts(0, k, n);
    }
    TurnCounts(0, n - 1, n);
    TurnCompose(0, n, k, n);
    TurnCompose(0, n - 1, 1, n);
    assert Turn(n - 1, 1, n) == 0;
    assert k + n == n + k;
  }

  /** The fixed-price strategy: every bid gets the configured price and the
      creatives in turn, starting at `crndx`. With no creatives, the first bid
      fails (`None`). */
  function AssignCreatives(bids: seq<Bid>, price: real, creatives: seq<int>, crndx: nat): (r: Option<seq<Bid>>)
    requires |creatives| == 0 || crndx < |creatives|
    ensures r.None? <==> |creatives| == 0 && |bids| > 0
    ensures r.Some? ==> |r.value| == |bids| && forall k :: 0 <= k < |bids| ==>
              r.value[k] == bids[k].(price := price, crid := IntToString(creatives[Turn(crndx, k, |creatives|)]))
    decreases |bids|
  {
    if |bids| == 0 then Some([])
    else if |creatives| == 0 then None
    else
      var bid := bids[0].(price := price, crid := IntToString(creatives[crndx]));
      var rest := AssignCreatives(bids[1..], price, creatives, Next(crndx, |creatives|));
      Some([bid] + rest.value)
  }

  /** The fixed-price strategy applied to a response: prices and creatives
      change, nothing else. */
  function FixedPrice(resp: BidResponse, price: real, creatives: seq<int>): (r: Option<BidResponse>)
    ensures r.None? <==> |creatives| == 0 && |resp.bids| > 0
    ensures r.Some? ==> r.value.id == resp.id && |r.value.bids| == |resp.bids|
    ensures r.Some? ==> forall k :: 0 <= k < |resp.bids| ==>
              r.value.bids[k] == resp.bids[k].(price := price, crid := IntToString(creatives[Turn(0, k, |creatives|)]))
  {
    match AssignCreatives(resp.bids, price, creatives, 0)
    case None => None
    case Some(bids) => Some(BidResponse(resp.id, bids))
  }

  /** Round-robin: bids `n` apart use the same creative, and with `n` creatives
      the first `n` bids use each creative once, in order. */
  lemma RoundRobin(resp: BidResponse, price: real, creatives: seq<int>, k: int)
    requires |creatives| > 0 && 0 <= k < |resp.bids|
    ensures var r := FixedPrice(resp, price, creatives).value;
            k < |creatives| ==> r.bids[k].crid == IntToString(creatives[k])
    ensures var r := FixedPrice(resp, price, creatives).value;
            k + |creatives| < |resp.bids| ==> r.bids[k + |creatives|].crid == r.bids[k].crid
  {
    var n := |creatives|;
    RoundRobinIndex(k, n);
    var r := FixedPrice(resp, price, creatives).value;
    if k + n < |resp.bids| {
      assert r.bids[k + n].crid == IntToString(creatives[Turn(0, k + n, n)]);
    }
  }

  /** With the agents' default configuration (one creative, id 1) every bid
      uses creative "1" at price 1.0. */
  lemma DefaultConfigurationBids(imps: seq<ImpView>, id: Option<Json>)
    ensures var r := FixedPrice(BidResponse(id, Bids(imps)), 1.0, [1]);
            r.Some? && forall k :: 0 <= k < |imps| ==> r.value.bids[k].crid == "1" && r.value.bids[k].price == 1.0
  {
    assert IntToString(1) == "1";
  }

  // ---------------------------------------------------------------- Budget pacer

  /** The banker's top-up request body: `{"USD/1M": <amount>}`. */
  function BalanceBody(amount: int): string {
    "{\"USD/1M\": " + IntToString(amount) + "}"
  }

  /** The banker's account-balance resource. */
  function BalancePath(account: string): string {
    "/v1/accounts/" + account + "/balance"
  }

  /** The body names the amount and the path names the account: different
      amounts or accounts give different requests. */
  lemma BalanceRequestInjective(a1: int, a2: int, acc1: string, acc2: string)
    ensures BalanceBody(a1) == BalanceBody(a2) ==> a1 == a2
    ensures BalancePath(acc1) == BalancePath(acc2) ==> acc1 == acc2
  {
    var pre := "{\"USD/1M\": ";
    if BalanceBody(a1) == BalanceBody(a2) {
      assert |IntToString(a1)| == |IntToString(a2)|;
      assert IntToString(a1) == BalanceBody(a1)[|pre|..|pre| + |IntToString(a1)|];
      assert IntToString(a2) == BalanceBody(a2)[|pre|..|pre| + |IntToString(a2)|];
      IntToStringInjective(a1, a2);
    }
    var p := "/v1/accounts/";
    if BalancePath(acc1) == BalancePath(acc2) {
      assert acc1 == BalancePath(acc1)[|p|..|p| + |acc1|];
      assert acc2 == BalancePath(acc2)[|p|..|p| + |acc2|];
    }
  }
}
