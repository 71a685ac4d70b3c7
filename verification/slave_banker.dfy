/** `SlaveBanker`: the router-side banker that keeps shadow accounts in sync
    with the master banker. Modelled here: construction, the completion
    callbacks of a synchronisation, the aggregator that joins the callbacks of
    `syncAll`, `addSpendAccount`, the periodic budget reauthorisation and the
    monitor indicator.

    Accounts are identified by key strings; the shadow-account merges
    (`syncFromMaster`, `initializeAndMergeState`) and the master's replies are
    inputs, described only by whether they throw. Time is in milliseconds. */
module SlaveBanker {
  import opened Wrappers

  type Key = string

  /** A `CurrencyPool`: an amount per currency code. */
  type CurrencyPool = map<string, int>

  predicate IsZero(pool: CurrencyPool) {
    forall c :: c in pool ==> pool[c] == 0
  }

  /** `MaximumFailSyncSeconds`, in milliseconds. */
  const MaximumFailSyncMs: int := 3 * 1000

  datatype Periodic = Periodic(name: string, periodMs: int)

  datatype SlaveBanker = SlaveBanker(
    accountSuffix: string,
    spendRate: CurrencyPool,
    accounts: set<Key>,
    reauthorizing: bool,
    numReauthorized: nat,
    lastSync: int,
    periodics: seq<Periodic>)

  datatype InitError = EmptyAccountSuffix | ZeroSpendRate

  /** The constructor and `init`: the suffix must be non-empty and the spend
      rate non-zero; spend is reported and budget reauthorised every second. */
  function Init(accountSuffix: string, spendRate: CurrencyPool): (r: Result<SlaveBanker, InitError>)
    ensures accountSuffix == "" ==> r == Err(EmptyAccountSuffix)
    ensures accountSuffix != "" && IsZero(spendRate) ==> r == Err(ZeroSpendRate)
    ensures r.Ok? <==> accountSuffix != "" && !IsZero(spendRate)
    ensures r.Ok? ==> r.value.accountSuffix == accountSuffix && r.value.spendRate == spendRate
                      && !r.value.reauthorizing && r.value.numReauthorized == 0
                      && r.value.accounts == {}
                      && r.value.periodics == [Periodic("SlaveBanker::reportSpend", 1000),
                                               Periodic("SlaveBanker::reauthorizeBudget", 1000)]
  {
    if accountSuffix == "" then Err(EmptyAccountSuffix)
    else if IsZero(spendRate) then Err(ZeroSpendRate)
    else Ok(SlaveBanker(accountSuffix, spendRate, {}, false, 0, 0,
                        [Periodic("SlaveBanker::reportSpend", 1000),
                         Periodic("SlaveBanker::reauthorizeBudget", 1000)]))
  }

  /** An exception travelling through a callback. */
  datatype Exc = Exc(what: string)

  /** The master banker's answer to a sync or initialisation request. */
  datatype MasterReply = RequestFailed(e: Exc) | MasterAccount

  /** Whether merging the master account into the shadow account threw. */
  datatype MergeOutcome = Merged | MergeThrew(e: Exc)

  /** `onSyncResult` and `onInitializeResult` as written (they differ only in
      the merge they call): the exceptions passed to `onDone`, in order. When
      the merge throws, the handler reports the exception and then falls
      through to report success as well. */
  function CompletionCallsAsWritten(reply: MasterReply, merge: MergeOutcome): (calls: seq<Option<Exc>>)
    ensures reply.MasterAccount? && merge.MergeThrew? ==> calls == [Some(merge.e), None]
  {
    match reply
    case RequestFailed(e) => [Some(e)]
    case MasterAccount =>
      match merge
      case MergeThrew(e) => [Some(e), None]
      case Merged => [None]
  }

  /** The completion handlers as intended: `onDone` is called exactly once,
      with the request's or the merge's exception if there was one. */
  function CompletionCalls(reply: MasterReply, merge: MergeOutcome): (calls: seq<Option<Exc>>)
    ensures |calls| == 1
    ensures calls[0].None? <==> reply.MasterAccount? && merge.Merged?
    ensures reply.RequestFailed? ==> calls[0] == Some(reply.e)
  {
    match reply
    case RequestFailed(e) => [Some(e)]
    case MasterAccount =>
      match merge
      case MergeThrew(e) => [Some(e)]
      case Merged => [None]
  }

  /** The two agree except when the merge throws. */
  lemma CompletionAgreesUnlessMergeThrows(reply: MasterReply, merge: MergeOutcome)
    ensures CompletionCallsAsWritten(reply, merge) == CompletionCalls(reply, merge)
            <==> !(reply.MasterAccount? && merge.MergeThrew?)
  {
  }

  /** The `Aggregator` of `syncAll`: counts completions, remembers the latest
      exception, and fires when the count reaches the number of accounts. */
  datatype Aggregator = Aggregator(numTotal: nat, numFinished: nat, exc: Option<Exc>)

  /** What one completion does: nothing visible, or call `onDone` with the
      remembered exception (and, without one, record the sync time). */
  datatype Signal = Quiet | Fired(exc: Option<Exc>)

  function Step(a: Aggregator, exc: Option<Exc>): (r: (Aggregator, Signal))
    ensures r.0.numTotal == a.numTotal && r.0.numFinished == a.numFinished + 1
  {
    var e := if exc.Some? then exc else a.exc;
    var nowDone := a.numFinished + 1;
    (Aggregator(a.numTotal, nowDone, e), if nowDone == a.numTotal then Fired(e) else Quiet)
  }

  /** The aggregator fed a sequence of completions: one signal per completion. */
  function Feed(a: Aggregator, calls: seq<Option<Exc>>): (r: (Aggregator, seq<Signal>))
    ensures |r.1| == |calls|
    ensures r.0.numFinished == a.numFinished + |calls| && r.0.numTotal == a.numTotal
    decreases |calls|
  {
    if |calls| == 0 then (a, [])
    else
      var (a1, s) := Step(a, calls[0]);
      var (a2, ss) := Feed(a1, calls[1..]);
      (a2, [s] + ss)
  }

  /** The latest exception among `calls`, or `e0` if none carries one. */
  function LastError(e0: Option<Exc>, calls: seq<Option<Exc>>): Option<Exc>
    decreases |calls|
  {
    if |calls| == 0 then e0 else LastError(if calls[0].Some? then calls[0] else e0, calls[1..])
  }

  /** Completion i fires exactly when it is the `numTotal`-th, and it reports
      the latest exception seen up to it. */
  lemma {:induction false} FeedSignals(a: Aggregator, calls: seq<Option<Exc>>)
    ensures forall i :: 0 <= i < |calls| ==>
              Feed(a, calls).1[i] == if a.numFinished + i + 1 == a.numTotal
                                     then Fired(LastError(a.exc, calls[..i + 1])) else Quiet
    decreases |calls|
  {
    if |calls| > 0 {
      var (a1, s) := Step(a, calls[0]);
      FeedSignals(a1, calls[1..]);
      forall i | 0 <= i < |calls|
        ensures Feed(a, calls).1[i] == if a.numFinished + i + 1 == a.numTotal
                                       then Fired(LastError(a.exc, calls[..i + 1])) else Quiet
      {
        if i > 0 {
          assert Feed(a, calls).1[i] == Feed(a1, calls[1..]).1[i - 1];
          assert calls[..i + 1][1..] == calls[1..][..i];
        } else {
          assert calls[..1][1..] == [];
        }
      }
    }
  }

  /** A fresh aggregator fed exactly one completion per account fires once,
      on the last completion, with the latest exception. */
  lemma AggregatorFiresOnce(calls: seq<Option<Exc>>)
    requires |calls| > 0
    ensures var signals := Feed(Aggregator(|calls|, 0, None), calls).1;
            signals[|calls| - 1] == Fired(LastError(None, calls))
            && forall i :: 0 <= i < |calls| - 1 ==> signals[i] == Quiet
  {
    FeedSignals(Aggregator(|calls|, 0, None), calls);
    assert calls[..|calls|] == calls;
  }

  /** The completions of a whole `syncAll`, account by account. */
  function AllCalls(replies: seq<(MasterReply, MergeOutcome)>, asWritten: bool): (calls: seq<Option<Exc>>)
    ensures !asWritten ==> |calls| == |replies|
  {
    if |replies| == 0 then []
    else
      (if asWritten then CompletionCallsAsWritten(replies[0].0, replies[0].1)
       else CompletionCalls(replies[0].0, replies[0].1))
      + AllCalls(replies[1..], asWritten)
  }

  /** With the intended handlers, `syncAll`'s aggregator fires exactly when
      the last account's reply has been handled. */
  lemma SyncAllFiresAtLastReply(replies: seq<(MasterReply, MergeOutcome)>)
    requires |replies| > 0
    ensures var calls := AllCalls(replies, false);
            var signals := Feed(Aggregator(|replies|, 0, None), calls).1;
            signals[|replies| - 1].Fired? && forall i :: 0 <= i < |replies| - 1 ==> signals[i] == Quiet
  {
    AggregatorFiresOnce(AllCalls(replies, false));
  }

  /** With the handlers as written, a merge that throws for the first of two
      accounts makes the aggregator fire before the second account's reply
      has been handled. */
  lemma EarlyFireAsWritten(e: Exc)
    ensures var replies := [(MasterAccount, MergeThrew(e)), (MasterAccount, Merged)];
            var calls := AllCalls(replies, true);
            calls == [Some(e), None, None]
            && Feed(Aggregator(2, 0, None), calls).1 == [Quiet, Fired(Some(e)), Quiet]
  {
    var replies := [(MasterAccount, MergeThrew(e)), (MasterAccount, Merged)];
    assert AllCalls(replies[1..], true) == [None] by {
      assert replies[1..][1..] == [];
    }
    var calls := AllCalls(replies, true);
    assert calls == [Some(e), None, None];
    var a0 := Aggregator(2, 0, None);
    FeedSignals(a0, calls);
    assert calls[..2] == [Some(e), None];
    assert LastError(None, calls[..2]) == Some(e) by {
      var twoCalls: seq<Option<Exc>> := [Some(e), None];
      assert twoCalls[1..] == [None] && twoCalls[1..][1..] == [];
      assert LastError(Some(e), twoCalls[1..][1..]) == Some(e);
      assert LastError(Some(e), twoCalls[1..]) == Some(e);
    }
    var signals := Feed(a0, calls).1;
    assert signals[0] == Quiet && signals[1] == Fired(Some(e)) && signals[2] == Quiet;
  }

  /** `syncAll`'s first step: the initialised accounts, in order. */
  function Initialized(keys: seq<Key>, isInitialized: Key -> bool): (r: seq<Key>)
    ensures |r| <= |keys|
    ensures forall k :: k in r <==> k in keys && isInitialized(k)
  {
    if |keys| == 0 then []
    else (if isInitialized(keys[0]) then [keys[0]] else []) + Initialized(keys[1..], isInitialized)
  }

  /** How `syncAll` starts: with no initialised account it records the sync
      time and completes at once; otherwise it sends one sync per account and
      waits on a fresh aggregator. */
  datatype SyncStart = CompletedAtOnce(banker: SlaveBanker) | Waiting(requests: seq<Key>, aggregator: Aggregator)

  function SyncAll(b: SlaveBanker, keys: seq<Key>, isInitialized: Key -> bool, now: int): (r: SyncStart)
    ensures r.CompletedAtOnce? <==> forall k :: k in keys ==> !isInitialized(k)
    ensures r.CompletedAtOnce? ==> r.banker == b.(lastSync := now)
    ensures r.Waiting? ==> r.aggregator == Aggregator(|r.requests|, 0, None)
                           && forall k :: k in r.requests <==> k in keys && isInitialized(k)
  {
    var ks := Initialized(keys, isInitialized);
    if |ks| == 0 then CompletedAtOnce(b.(lastSync := now))
    else
      assert ks[0] in ks;
      Waiting(ks, Aggregator(|ks|, 0, None))
  }

  /** The banker after the aggregator signals at time `now`: the sync time is
      recorded only when it fires without an exception. */
  function AfterSignal(b: SlaveBanker, s: Signal, now: int): (r: SlaveBanker)
    ensures r.lastSync == (if s == Fired(None) then now else b.lastSync)
    ensures r.(lastSync := b.lastSync) == b
  {
    if s == Fired(None) then b.(lastSync := now) else b
  }

  /** What `addSpendAccount` does: the account existed (its current state goes
      straight to `onDone`), or it was created and an initialisation request
      went to the master. */
  datatype AddOutcome = AlreadyPresent | InitializeRequested(key: Key)

  function AddSpendAccount(b: SlaveBanker, key: Key): (r: (SlaveBanker, AddOutcome))
    ensures r.0.accounts == b.accounts + {key}
    ensures r.1 == (if key in b.accounts then AlreadyPresent else InitializeRequested(key))
  {
    if key in b.accounts then (b, AlreadyPresent)
    else (b.(accounts := b.accounts + {key}), InitializeRequested(key))
  }

  /** Adding an account twice requests its initialisation once. */
  lemma AddSpendAccountIdempotent(b: SlaveBanker, key: Key)
    ensures var (b1, o1) := AddSpendAccount(b, key);
            var (b2, o2) := AddSpendAccount(b1, key);
            b2 == b1 && o2 == AlreadyPresent
  {
  }

  /** A `ReauthorizeOp`: how many accounts were asked about, how many answers
      are still outstanding. */
  datatype ReauthorizeOp = ReauthorizeOp(numAccounts: nat, pending: nat)

  /** One reauthorisation request: POST to /v1/accounts/<shadow account>/balance
      with accountType=spend and the spend rate as payload. */
  datatype BalanceRequest = BalanceRequest(key: Key, spendRate: CurrencyPool)

  function Requests(keys: seq<Key>, spendRate: CurrencyPool): (r: seq<BalanceRequest>)
    ensures |r| == |keys|
    ensures forall i :: 0 <= i < |keys| ==> r[i] == BalanceRequest(keys[i], spendRate)
  {
    if |keys| == 0 then [] else [BalanceRequest(keys[0], spendRate)] + Requests(keys[1..], spendRate)
  }

  /** The outcome of a periodic tick: the banker, the operation started (if
      any) and the requests sent. */
  datatype Tick = Tick(banker: SlaveBanker, op: Option<ReauthorizeOp>, requests: seq<BalanceRequest>)

  /** `reauthorizeBudgetPeriodic` as written: skip while a reauthorisation is
      in progress; otherwise raise the flag and ask about every initialised
      account. With no account no answer will ever lower the flag. */
  function ReauthorizeTickAsWritten(b: SlaveBanker, initialized: seq<Key>): (r: Tick)
    ensures b.reauthorizing ==> r == Tick(b, None, [])
    ensures !b.reauthorizing ==> r.banker.reauthorizing
                                 && r.op == Some(ReauthorizeOp(|initialized|, |initialized|))
                                 && r.requests == Requests(initialized, b.spendRate)
  {
    if b.reauthorizing then Tick(b, None, [])
    else
      var b1 := b.(reauthorizing := true);
      var op := ReauthorizeOp(|initialized|, |initialized|);
      Tick(if op.numAccounts > 0 then b1.(reauthorizing := true) else b1, Some(op), Requests(initialized, b.spendRate))
  }

  /** The tick as intended: the flag is raised only when there are answers to
      wait for (what `reauthorizeBudget` itself does). */
  function ReauthorizeTick(b: SlaveBanker, initialized: seq<Key>): (r: Tick)
    ensures b.reauthorizing ==> r == Tick(b, None, [])
    ensures !b.reauthorizing ==> (r.banker.reauthorizing <==> |initialized| > 0)
                                 && r.op == Some(ReauthorizeOp(|initialized|, |initialized|))
                                 && r.requests == Requests(initialized, b.spendRate)
  {
    if b.reauthorizing then Tick(b, None, [])
    else
      var op := ReauthorizeOp(|initialized|, |initialized|);
      Tick(if op.numAccounts > 0 then b.(reauthorizing := true) else b, Some(op), Requests(initialized, b.spendRate))
  }

  /** The reply to one reauthorisation request. */
  datatype ReauthorizeReply = TransportError(e: Exc) | HttpReply(code: int, body: string)

  /** What `onReauthorizeBudgetMessage` does with a reply: an exception aborts
      the process, a 200 merges the returned master account, anything else is
      ignored. */
  datatype ReplyEffect = Abort | SyncFromMaster(key: Key, body: string) | NoEffect

  function OnReauthorizeBudgetMessage(key: Key, reply: ReauthorizeReply): (r: ReplyEffect)
    ensures r.Abort? <==> reply.TransportError?
    ensures r.SyncFromMaster? <==> reply.HttpReply? && reply.code == 200
    ensures r.SyncFromMaster? ==> r.key == key && r.body == reply.body
  {
    match reply
    case TransportError(_) => Abort
    case HttpReply(code, body) => if code == 200 then SyncFromMaster(key, body) else NoEffect
  }

  /** One answer arriving (after its message was handled): the pending count
      drops, and the last answer completes the operation — the flag is
      lowered and the completed count goes up. */
  function OnAnswer(b: SlaveBanker, op: ReauthorizeOp): (r: (SlaveBanker, ReauthorizeOp))
    requires op.pending > 0
    ensures r.1 == op.(pending := op.pending - 1)
    ensures r.1.pending == 0 ==> !r.0.reauthorizing && r.0.numReauthorized == b.numReauthorized + 1
    ensures r.1.pending > 0 ==> r.0 == b
  {
    var op' := op.(pending := op.pending - 1);
    if op'.pending == 0 then (b.(reauthorizing := false, numReauthorized := b.numReauthorized + 1), op')
    else (b, op')
  }

  /** What the completion callback of one request leaves behind. */
  datatype AnswerOutcome =
    | Aborted                                      // the transport error aborts the process
    | Threw(banker: SlaveBanker, op: ReauthorizeOp) // the 200 handler threw before `pending--`
    | Answered(banker: SlaveBanker, op: ReauthorizeOp)

  /** `onAccountDone`: the message is handled, then the answer is counted.
      On a 200 reply the parse of the body, `Account::fromJson` or the merge
      may throw (`mergeThrows`, the oracle for those calls); the exception
      leaves the callback before the pending count drops. */
  function OnAccountDone(b: SlaveBanker, op: ReauthorizeOp, key: Key, reply: ReauthorizeReply,
                         mergeThrows: bool): (r: AnswerOutcome)
    requires op.pending > 0
    ensures r.Aborted? <==> reply.TransportError?
    ensures r.Threw? <==> reply.HttpReply? && reply.code == 200 && mergeThrows
    ensures r.Threw? ==> r.banker == b && r.op == op
    ensures r.Answered? ==> (r.banker, r.op) == OnAnswer(b, op)
  {
    match OnReauthorizeBudgetMessage(key, reply)
    case Abort => Aborted
    case SyncFromMaster(_, _) =>
      if mergeThrows then Threw(b, op)
      else var (b', op') := OnAnswer(b, op); Answered(b', op')
    case NoEffect => var (b', op') := OnAnswer(b, op); Answered(b', op')
  }

  /** A last answer whose body cannot be merged leaves the operation pending
      and the flag raised; the answer that would complete it never comes, so
      every later tick is skipped. */
  lemma ThrowingLastAnswerKeepsFlag(b: SlaveBanker, key: Key, body: string, later: seq<Key>)
    requires !b.reauthorizing
    ensures var t := ReauthorizeTickAsWritten(b, [key]);
            var r := OnAccountDone(t.banker, t.op.value, key, HttpReply(200, body), true);
            r.Threw? && r.op.pending == 1 && r.banker.reauthorizing
            && ReauthorizeTickAsWritten(r.banker, later) == Tick(r.banker, None, [])
  {
  }

  /** The same answer merged cleanly completes the operation. */
  lemma CleanLastAnswerCompletes(b: SlaveBanker, key: Key, reply: ReauthorizeReply)
    requires !b.reauthorizing && reply.HttpReply?
    ensures var t := ReauthorizeTickAsWritten(b, [key]);
            var r := OnAccountDone(t.banker, t.op.value, key, reply, false);
            r.Answered? && r.op.pending == 0 && !r.banker.reauthorizing
            && r.banker.numReauthorized == b.numReauthorized + 1
  {
  }

  /** `n` answers arriving in turn. */
  function Answers(b: SlaveBanker, op: ReauthorizeOp, n: nat): (r: (SlaveBanker, ReauthorizeOp))
    requires n <= op.pending
    ensures r.1 == op.(pending := op.pending - n)
    decreases n
  {
    if n == 0 then (b, op) else var (b1, op1) := OnAnswer(b, op); Answers(b1, op1, n - 1)
  }

  /** Once every account has answered, the flag is lowered and one more
      reauthorisation has completed; before that the flag stays as it was. */
  lemma {:induction false} AnswersComplete(b: SlaveBanker, op: ReauthorizeOp, n: nat)
    requires 0 < n <= op.pending
    ensures var (b', op') := Answers(b, op, n);
            if n == op.pending
            then !b'.reauthorizing && b'.numReauthorized == b.numReauthorized + 1
            else b' == b
    decreases n
  {
    var (b1, op1) := OnAnswer(b, op);
    if n > 1 {
      AnswersComplete(b1, op1, n - 1);
    }
  }

  /** With no initialised account, the tick as written raises the flag for
      good: no request is sent, so no answer lowers it, and every later tick
      is skipped even once accounts exist. */
  lemma StuckReauthorizing(b: SlaveBanker, later: seq<Key>)
    requires !b.reauthorizing
    ensures var t := ReauthorizeTickAsWritten(b, []);
            t.banker.reauthorizing && t.requests == [] && t.op == Some(ReauthorizeOp(0, 0))
            && ReauthorizeTickAsWritten(t.banker, later).requests == []
  {
  }

  /** The intended tick leaves the flag down when there is nothing to do, so
      the next tick with accounts asks about all of them. */
  lemma NoStuckReauthorizing(b: SlaveBanker, later: seq<Key>)
    requires !b.reauthorizing
    ensures var t := ReauthorizeTick(b, []);
            !t.banker.reauthorizing
            && ReauthorizeTick(t.banker, later).requests == Requests(later, b.spendRate)
  {
  }

  /** `getProviderIndicators`: healthy while the last successful sync is less
      than three seconds old; the service is named after the account suffix. */
  datatype MonitorIndicator = MonitorIndicator(serviceName: string, status: bool, message: string)

  function ProviderIndicators(b: SlaveBanker, now: int): (ind: MonitorIndicator)
    ensures ind.serviceName == b.accountSuffix
    ensures ind.status <==> now - b.lastSync < MaximumFailSyncMs
    ensures ind.message == "Sync with MasterBanker: " + (if ind.status then "OK" else "ERROR")
  {
    var syncOk := now < b.lastSync + MaximumFailSyncMs;
    MonitorIndicator(b.accountSuffix, syncOk, "Sync with MasterBanker: " + (if syncOk then "OK" else "ERROR"))
  }

  /** A sync that completed without error keeps the indicator healthy for
      three seconds and no longer. */
  lemma HealthyAfterSync(b: SlaveBanker, syncTime: int, now: int)
    requires syncTime <= now
    ensures var b' := AfterSignal(b, Fired(None), syncTime);
            ProviderIndicators(b', now).status <==> now < syncTime + MaximumFailSyncMs
  {
  }
}
