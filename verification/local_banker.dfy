/** `LocalBanker`: the banker client that talks HTTP to the external Go
    banker. It registers accounts (retrying the ones not yet confirmed every
    second), periodically reauthorises budget (router) or reports spend
    (post-auction), and checks bids and wins against its local copy of the
    accounts.

    The Go account store (`GoAccounts`) is outside this model: an account is a
    value of type `A`, and parsing an account from the banker's reply, updating
    a balance and the local bid/win checks are parameters. HTTP posts are
    values; their replies are inputs to the handlers. */
module LocalBanker {
  import opened Wrappers
  import opened Json

  type Key = string

  datatype AccountType = Router | PostAuction

  datatype LocalBanker<A> = LocalBanker(
    accountType: AccountType,
    accountSuffix: string,
    accounts: map<Key, A>,
    uninitialized: set<Key>)

  /** A POST to the Go banker: path, JSON payload, timeout in milliseconds. */
  datatype Post = Post(path: string, payload: Json, timeoutMs: int)

  datatype Periodic = Periodic(name: string, periodMs: int)

  function New<A>(accountType: AccountType, accountSuffix: string): (b: LocalBanker<A>)
    ensures b.accounts == map[] && b.uninitialized == {}
  {
    LocalBanker(accountType, accountSuffix, map[], {})
  }

  /** The periodic jobs `init` installs: a router reauthorises every second, a
      post-auction banker reports spend every half second, and both retry
      unconfirmed accounts every second. */
  function Periodics(accountType: AccountType): (ps: seq<Periodic>)
    ensures Periodic("uninitializedAccounts", 1000) in ps
    ensures Periodic("localBanker::reauthorize", 1000) in ps <==> accountType == Router
    ensures Periodic("localBanker::spendUpdate", 500) in ps <==> accountType == PostAuction
    ensures |ps| == 2
  {
    (if accountType == Router then [Periodic("localBanker::reauthorize", 1000)] else [])
    + (if accountType == PostAuction then [Periodic("localBanker::spendUpdate", 500)] else [])
    + [Periodic("uninitializedAccounts", 1000)]
  }

  /** The key the banker uses for a campaign account: its own suffix appended. */
  function FullKey(key: Key, accountSuffix: string): (k: Key)
    ensures |k| == |key| + 1 + |accountSuffix|
    ensures k[..|key|] == key && k[|key|..] == ":" + accountSuffix
  {
    key + ":" + accountSuffix
  }

  function AccountTypeName(t: AccountType): string {
    match t
    case Router => "Router"
    case PostAuction => "PostAuction"
  }

  /** The account-creation request (members in jsoncpp's sorted order). */
  function AccountPost(t: AccountType, key: Key): (p: Post)
    ensures p.path == "/accounts" && p.timeoutMs == 1000
    ensures Member(p.payload, "accountName") == Some(Str(key))
    ensures Member(p.payload, "accountType") == Some(Str(AccountTypeName(t)))
  {
    var members := [("accountName", Str(key)), ("accountType", Str(AccountTypeName(t)))];
    assert "accountName"[7] != "accountType"[7] && members[1..] == [("accountType", Str(AccountTypeName(t)))];
    assert Lookup(members, "accountType") == Lookup(members[1..], "accountType");
    Post("/accounts", Obj(members), 1000)
  }

  /** `addAccountImpl`: a known account is dropped from the unconfirmed set;
      an unknown one joins it and a creation request goes out. */
  function AddAccountImpl<A>(b: LocalBanker<A>, key: Key): (r: (LocalBanker<A>, Option<Post>))
    ensures r.0.accounts == b.accounts
    ensures key in b.accounts ==> r == (b.(uninitialized := b.uninitialized - {key}), None)
    ensures key !in b.accounts ==>
              r.0.uninitialized == b.uninitialized + {key} && r.1 == Some(AccountPost(b.accountType, key))
    ensures r.0.accountType == b.accountType && r.0.accountSuffix == b.accountSuffix
  {
    if key in b.accounts then (b.(uninitialized := b.uninitialized - {key}), None)
    else (b.(uninitialized := b.uninitialized + {key}), Some(AccountPost(b.accountType, key)))
  }

  /** `addAccount`: registers the campaign's account under the banker's suffix. */
  function AddAccount<A>(b: LocalBanker<A>, key: Key): (r: (LocalBanker<A>, Option<Post>))
    ensures r.0.accounts == b.accounts
    ensures FullKey(key, b.accountSuffix) in b.accounts ==>
              r.1.None? && r.0.uninitialized == b.uninitialized - {FullKey(key, b.accountSuffix)}
    ensures FullKey(key, b.accountSuffix) !in b.accounts ==>
              r.0.uninitialized == b.uninitialized + {FullKey(key, b.accountSuffix)}
              && r.1 == Some(AccountPost(b.accountType, FullKey(key, b.accountSuffix)))
  {
    AddAccountImpl(b, FullKey(key, b.accountSuffix))
  }

  /** The reply to an account-creation request: on 200 the account in the body
      is added and the key counts as confirmed; otherwise nothing changes. */
  function OnAccountReply<A>(b: LocalBanker<A>, key: Key, status: int, body: string,
                             addFromJsonString: (map<Key, A>, string) -> map<Key, A>): (r: LocalBanker<A>)
    ensures status != 200 ==> r == b
    ensures status == 200 ==> r.uninitialized == b.uninitialized - {key}
                              && r.accounts == addFromJsonString(b.accounts, body)
  {
    if status != 200 then b
    else b.(accounts := addFromJsonString(b.accounts, body), uninitialized := b.uninitialized - {key})
  }

  /** The periodic retry: take the unconfirmed set out, then run
      `addAccountImpl` on each of its keys. Afterwards exactly the keys still
      unknown are unconfirmed, and each of them got one creation request. */
  method InitializeAccountsTick<A>(b: LocalBanker<A>) returns (b': LocalBanker<A>, requested: seq<Key>)
    ensures b'.accounts == b.accounts && b'.accountType == b.accountType && b'.accountSuffix == b.accountSuffix
    ensures b'.uninitialized == b.uninitialized - b.accounts.Keys
    ensures forall k :: k in requested <==> k in b'.uninitialized
    ensures Distinct(requested)
  {
    var pending := b.uninitialized;
    b' := b.(uninitialized := {});
    requested := [];
    while pending != {}
      invariant b'.accounts == b.accounts && b'.accountType == b.accountType
      invariant b'.accountSuffix == b.accountSuffix
      invariant pending <= b.uninitialized
      invariant b'.uninitialized == (b.uninitialized - pending) - b.accounts.Keys
      invariant forall k :: k in requested <==> k in b'.uninitialized
      invariant Distinct(requested)
      decreases |pending|
    {
      var key :| key in pending;
      TickStep(b.uninitialized, pending, b.accounts.Keys, b'.uninitialized, key);
      var step := AddAccountImpl(b', key);
      if step.1.Some? {
        AppendFresh(requested, key);
        requested := requested + [key];
      }
      b' := step.0;
      pending := pending - {key};
    }
  }

  /** One key of the retry loop moves from pending to done. */
  lemma TickStep(all: set<Key>, pending: set<Key>, known: set<Key>, uninit: set<Key>, key: Key)
    requires uninit == (all - pending) - known && key in pending && pending <= all
    ensures key !in uninit
    ensures key in known ==> uninit - {key} == (all - (pending - {key})) - known
    ensures key !in known ==> uninit + {key} == (all - (pending - {key})) - known
  {
  }

  predicate Distinct(s: seq<Key>) {
    forall i, j :: 0 <= i < j < |s| ==> s[i] != s[j]
  }

  lemma AppendFresh(s: seq<Key>, k: Key)
    requires Distinct(s) && k !in s
    ensures Distinct(s + [k])
  {
  }

  /** The accounts in some iteration order: every key once. */
  method Enumerate<A>(accounts: map<Key, A>) returns (order: seq<Key>)
    ensures forall k :: k in order <==> k in accounts
    ensures forall i, j :: 0 <= i < j < |order| ==> order[i] != order[j]
    ensures |order| == |accounts|
  {
    var rest := accounts.Keys;
    order := [];
    while rest != {}
      invariant rest <= accounts.Keys
      invariant forall k :: k in order <==> k in accounts && k !in rest
      invariant forall i, j :: 0 <= i < j < |order| ==> order[i] != order[j]
      invariant |order| + |rest| == |accounts.Keys|
      decreases |rest|
    {
      var key :| key in rest;
      order := order + [key];
      rest := rest - {key};
    }
    assert accounts.Keys == set k | k in order;
    DistinctCard(order);
  }

  lemma {:induction false} DistinctCard(s: seq<Key>)
    requires forall i, j :: 0 <= i < j < |s| ==> s[i] != s[j]
    ensures |set k | k in s| == |s|
  {
    if |s| > 0 {
      var init := s[..|s| - 1];
      DistinctCard(init);
      assert (set k | k in s) == (set k | k in init) + {s[|s| - 1]};
      assert s[|s| - 1] !in (set k | k in init);
    }
  }

  function Names(order: seq<Key>): (items: seq<Json>)
    ensures |items| == |order|
    ensures forall i :: 0 <= i < |order| ==> items[i] == Str(order[i])
  {
    if |order| == 0 then [] else [Str(order[0])] + Names(order[1..])
  }

  /** `reauthorize`: the names of all accounts, posted to /reauthorize/1 with a
      two-second timeout. */
  function ReauthorizePost(order: seq<Key>): (p: Post)
    ensures p.path == "/reauthorize/1" && p.timeoutMs == 2000
    ensures p.payload.Arr? && |p.payload.items| == |order|
    ensures forall i :: 0 <= i < |order| ==> p.payload.items[i] == Str(order[i])
  {
    Post("/reauthorize/1", Arr(Names(order)), 2000)
  }

  function Rendered<A>(accounts: map<Key, A>, order: seq<Key>, toJson: A -> Json): (items: seq<Json>)
    requires forall k :: k in order ==> k in accounts
    ensures |items| == |order|
    ensures forall i :: 0 <= i < |order| ==> items[i] == toJson(accounts[order[i]])
  {
    if |order| == 0 then [] else [toJson(accounts[order[0]])] + Rendered(accounts, order[1..], toJson)
  }

  /** `spendUpdate`: every account's JSON, posted to /spendupdate with a
      half-second timeout. */
  function SpendUpdatePost<A>(accounts: map<Key, A>, order: seq<Key>, toJson: A -> Json): (p: Post)
    requires forall k :: k in order ==> k in accounts
    ensures p.path == "/spendupdate" && p.timeoutMs == 500
    ensures p.payload.Arr? && |p.payload.items| == |order|
    ensures forall i :: 0 <= i < |order| ==> p.payload.items[i] == toJson(accounts[order[i]])
  {
    Post("/spendupdate", Arr(Rendered(accounts, order, toJson)), 500)
  }

  /** The periodic jobs as the banker runs them: every account appears in the
      payload exactly once. */
  method PeriodicPost<A>(b: LocalBanker<A>, toJson: A -> Json) returns (p: Post, order: seq<Key>)
    ensures |order| == |b.accounts| && forall k :: k in order <==> k in b.accounts
    ensures b.accountType == Router ==> p == ReauthorizePost(order)
    ensures b.accountType == PostAuction ==> p == SpendUpdatePost(b.accounts, order, toJson)
  {
    order := Enumerate(b.accounts);
    if b.accountType == Router {
      p := ReauthorizePost(order);
    } else {
      p := SpendUpdatePost(b.accounts, order, toJson);
    }
  }

  datatype ReplyError = Unparsable(body: string) | BadEntry(entry: Json) | BadField(e: ConversionError)

  /** The values a reply document iterates over. */
  function Entries(doc: Json): seq<Json> {
    match doc
    case Arr(items) => items
    case Obj(ms) => seq(|ms|, i requires 0 <= i < |ms| => ms[i].1)
    case _ => []
  }

  /** One entry of the reauthorisation reply: account name and new balance. */
  function BalanceOf(entry: Json): (r: Result<(Key, int), ReplyError>)
    ensures r.Ok? ==> AsString(At(entry, "name")) == Ok(r.value.0)
                      && AsInt(At(entry, "balance")) == Ok(r.value.1)
  {
    if !(entry.Obj? || entry.Null?) then Err(BadEntry(entry))
    else
      var name :- AsString(At(entry, "name")).MapFailure(e => BadField(e));
      var balance :- AsInt(At(entry, "balance")).MapFailure(e => BadField(e));
      Ok((name, balance))
  }

  /** The balances applied so far and, when an entry could not be read, the
      error that stopped the loop. */
  datatype Applied<A> = Applied(accounts: map<Key, A>, error: Option<ReplyError>)

  /** The reference: each (name, balance) pair applied in order. */
  function UpdateAll<A>(accounts: map<Key, A>, pairs: seq<(Key, int)>,
                        updateBalance: (map<Key, A>, Key, int) -> map<Key, A>): map<Key, A>
    decreases |pairs|
  {
    if |pairs| == 0 then accounts
    else UpdateAll(updateBalance(accounts, pairs[0].0, pairs[0].1), pairs[1..], updateBalance)
  }

  /** The loop over the reply's entries: each balance is written into the
      accounts in place, so when an entry cannot be read the ones before it
      stay applied and the exception ends the loop. */
  function ApplyBalances<A>(accounts: map<Key, A>, entries: seq<Json>,
                            updateBalance: (map<Key, A>, Key, int) -> map<Key, A>): (r: Applied<A>)
    ensures r.error.None? <==> forall i :: 0 <= i < |entries| ==> BalanceOf(entries[i]).Ok?
    ensures |entries| > 0 && BalanceOf(entries[0]).Err? ==>
              r == Applied(accounts, Some(BalanceOf(entries[0]).error))
    decreases |entries|
  {
    if |entries| == 0 then Applied(accounts, None)
    else match BalanceOf(entries[0])
      case Err(e) => Applied(accounts, Some(e))
      case Ok((key, balance)) =>
        var r := ApplyBalances(updateBalance(accounts, key, balance), entries[1..], updateBalance);
        assert forall i :: 1 <= i < |entries| ==> entries[i] == entries[1..][i - 1];
        r
  }

  /** The entries are applied in order: when the first `|pairs|` entries read
      as `pairs`, the result is `pairs` applied to the accounts, followed by
      the error of the next entry if it cannot be read. */
  lemma {:induction false} ApplyBalancesInOrder<A>(accounts: map<Key, A>, entries: seq<Json>, pairs: seq<(Key, int)>,
                                                   updateBalance: (map<Key, A>, Key, int) -> map<Key, A>)
    requires |pairs| <= |entries|
    requires forall i :: 0 <= i < |pairs| ==> BalanceOf(entries[i]) == Ok(pairs[i])
    ensures |pairs| == |entries| ==>
              ApplyBalances(accounts, entries, updateBalance) == Applied(UpdateAll(accounts, pairs, updateBalance), None)
    ensures |pairs| < |entries| && BalanceOf(entries[|pairs|]).Err? ==>
              ApplyBalances(accounts, entries, updateBalance)
              == Applied(UpdateAll(accounts, pairs, updateBalance), Some(BalanceOf(entries[|pairs|]).error))
    decreases |pairs|
  {
    if |pairs| > 0 {
      var next := updateBalance(accounts, pairs[0].0, pairs[0].1);
      assert BalanceOf(entries[0]) == Ok(pairs[0]);
      assert forall i :: 0 <= i < |pairs| - 1 ==> entries[1..][i] == entries[i + 1];
      ApplyBalancesInOrder(next, entries[1..], pairs[1..], updateBalance);
      if |pairs| < |entries| {
        assert entries[1..][|pairs| - 1] == entries[|pairs|];
      }
    }
  }

  /** A reply split in two is the first part applied, then, unless it
      stopped on an error, the second part applied to its result. */
  lemma {:induction false} ApplyBalancesAppend<A>(accounts: map<Key, A>, e1: seq<Json>, e2: seq<Json>,
                                                  updateBalance: (map<Key, A>, Key, int) -> map<Key, A>)
    ensures var first := ApplyBalances(accounts, e1, updateBalance);
            ApplyBalances(accounts, e1 + e2, updateBalance)
            == if first.error.Some? then first else ApplyBalances(first.accounts, e2, updateBalance)
    decreases |e1|
  {
    if |e1| == 0 {
      assert e1 + e2 == e2;
    } else {
      assert (e1 + e2)[0] == e1[0];
      assert (e1 + e2)[1..] == e1[1..] + e2;
      match BalanceOf(e1[0])
      case Err(_) =>
      case Ok((key, balance)) =>
        ApplyBalancesAppend(updateBalance(accounts, key, balance), e1[1..], e2, updateBalance);
    }
  }

  /** The reply to a reauthorisation: on 200 the body is parsed and each
      entry's balance applied in order; other statuses change nothing. The
      banker keeps whatever was applied before an error. */
  function OnReauthorizeReply<A>(b: LocalBanker<A>, status: int, body: string, codec: Codec,
                                 updateBalance: (map<Key, A>, Key, int) -> map<Key, A>)
    : (r: (LocalBanker<A>, Option<ReplyError>))
    ensures status != 200 ==> r == (b, None)
    ensures status == 200 && codec.fromText(body).None? ==> r == (b, Some(Unparsable(body)))
    ensures status == 200 && codec.fromText(body).Some? ==>
              (r.1.None? <==> forall i :: 0 <= i < |Entries(codec.fromText(body).value)| ==>
                                         BalanceOf(Entries(codec.fromText(body).value)[i]).Ok?)
    ensures r.0.uninitialized == b.uninitialized && r.0.accountType == b.accountType
    ensures r.0.accountSuffix == b.accountSuffix
  {
    if status != 200 then (b, None)
    else match codec.fromText(body)
      case None => (b, Some(Unparsable(body)))
      case Some(doc) =>
        var applied := ApplyBalances(b.accounts, Entries(doc), updateBalance);
        (b.(accounts := applied.accounts), applied.error)
  }

  /** A 200 reply whose entries all read as `pairs` succeeds and applies
      each balance in order; if instead the entry after them cannot be read,
      the balances before it are applied and the error is reported. */
  lemma ReauthorizeAppliesInOrder<A>(b: LocalBanker<A>, body: string, codec: Codec, doc: Json,
                                     pairs: seq<(Key, int)>, updateBalance: (map<Key, A>, Key, int) -> map<Key, A>)
    requires codec.fromText(body) == Some(doc)
    requires |pairs| <= |Entries(doc)|
    requires forall i :: 0 <= i < |pairs| ==> BalanceOf(Entries(doc)[i]) == Ok(pairs[i])
    ensures |pairs| == |Entries(doc)| ==>
              OnReauthorizeReply(b, 200, body, codec, updateBalance)
              == (b.(accounts := UpdateAll(b.accounts, pairs, updateBalance)), None)
    ensures |pairs| < |Entries(doc)| && BalanceOf(Entries(doc)[|pairs|]).Err? ==>
              OnReauthorizeReply(b, 200, body, codec, updateBalance)
              == (b.(accounts := UpdateAll(b.accounts, pairs, updateBalance)),
                  Some(BalanceOf(Entries(doc)[|pairs|]).error))
  {
    ApplyBalancesInOrder(b.accounts, Entries(doc), pairs, updateBalance);
  }

  /** A reply listing a single account applies exactly that balance. */
  lemma ReauthorizeOneAccount<A>(b: LocalBanker<A>, name: Key, balance: int, body: string, codec: Codec,
                                 updateBalance: (map<Key, A>, Key, int) -> map<Key, A>)
    requires MinInt32 <= balance <= MaxInt32
    requires codec.fromText(body) == Some(Arr([Obj([("balance", Int(balance)), ("name", Str(name))])]))
    ensures OnReauthorizeReply(b, 200, body, codec, updateBalance)
            == (b.(accounts := updateBalance(b.accounts, name, balance)), None)
  {
    var members := [("balance", Int(balance)), ("name", Str(name))];
    assert "balance"[0] != "name"[0] && members[1..] == [("name", Str(name))];
    var entries := [Obj(members)];
    assert Lookup(members, "name") == Lookup(members[1..], "name") == Some(Str(name));
    assert Lookup(members, "balance") == Some(Int(balance));
    assert BalanceOf(entries[0]) == Ok((name, balance));
    ApplyBalancesInOrder(b.accounts, entries, [(name, balance)], updateBalance);
    assert [(name, balance)][1..] == [];
  }

  /** `bid` and `win`: checked against the local account under the full key. */
  function Bid<A>(b: LocalBanker<A>, key: Key, price: int, goBid: (map<Key, A>, Key, int) -> bool): bool {
    goBid(b.accounts, FullKey(key, b.accountSuffix), price)
  }

  function Win<A>(b: LocalBanker<A>, key: Key, price: int, goWin: (map<Key, A>, Key, int) -> bool): bool {
    goWin(b.accounts, FullKey(key, b.accountSuffix), price)
  }

  /** A new campaign key becomes unconfirmed, is requested, and once the
      banker confirms it is no longer retried; a failed reply leaves it for
      the retry. */
  lemma AddAccountThenConfirm<A>(b: LocalBanker<A>, key: Key, body: string,
                                 addFromJsonString: (map<Key, A>, string) -> map<Key, A>)
    requires FullKey(key, b.accountSuffix) !in b.accounts
    ensures var full := FullKey(key, b.accountSuffix);
            var (b1, post) := AddAccount(b, key);
            post == Some(AccountPost(b.accountType, full))
            && full in b1.uninitialized
            && full !in OnAccountReply(b1, full, 200, body, addFromJsonString).uninitialized
            && OnAccountReply(b1, full, 404, body, addFromJsonString) == b1
  {
  }

  /** `bid` and `win` consult the account `addAccount` asks the Go banker to
      create: the name in the creation request is the key both query, and
      after the banker's 200 reply they see the accounts that reply added. */
  lemma BidWinConsultAddedAccount<A>(b: LocalBanker<A>, key: Key, price: int, body: string,
                                     addFromJsonString: (map<Key, A>, string) -> map<Key, A>,
                                     goBid: (map<Key, A>, Key, int) -> bool, goWin: (map<Key, A>, Key, int) -> bool)
    requires FullKey(key, b.accountSuffix) !in b.accounts
    ensures var (b1, post) := AddAccount(b, key);
            post.Some? && Member(post.value.payload, "accountName") == Some(Str(FullKey(key, b.accountSuffix)))
            && var b2 := OnAccountReply(b1, FullKey(key, b.accountSuffix), 200, body, addFromJsonString);
               Bid(b2, key, price, goBid) == goBid(addFromJsonString(b.accounts, body), FullKey(key, b.accountSuffix), price)
               && Win(b2, key, price, goWin) == goWin(addFromJsonString(b.accounts, body), FullKey(key, b.accountSuffix), price)
  {
  }

  /** Two campaign keys never share a banker account: with an account store
      that checks only the named account, bidding on one key does not read
      the account of another. */
  lemma BidIgnoresOtherAccounts<A>(b: LocalBanker<A>, key: Key, other: Key, a: A, price: int,
                                   check: (Option<A>, int) -> bool)
    requires key != other
    ensures var goBid := (m: map<Key, A>, k: Key, p: int) => check(if k in m then Some(m[k]) else None, p);
            var b' := b.(accounts := b.accounts[FullKey(other, b.accountSuffix) := a]);
            Bid(b', key, price, goBid) == Bid(b, key, price, goBid)
  {
    if FullKey(key, b.accountSuffix) == FullKey(other, b.accountSuffix) {
      FullKeyInjective(key, other, b.accountSuffix);
    }
  }

  /** Distinct campaign keys map to distinct banker keys. */
  lemma FullKeyInjective(k1: Key, k2: Key, suffix: string)
    requires FullKey(k1, suffix) == FullKey(k2, suffix)
    ensures k1 == k2
  {
    var f := FullKey(k1, suffix);
    assert f[..|f| - |suffix| - 1] == k1;
    assert FullKey(k2, suffix)[..|f| - |suffix| - 1] == k2;
  }
}
