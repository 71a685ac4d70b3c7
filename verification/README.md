# rtbkit core, modelled in Dafny

This project models the sequential logic of rtbkit, a real-time bidding
toolkit. It also proves properties of that logic. The parts modelled are:

- **Plugin registries.** The process-wide `PluginTable` and its typed front
  end `PluginInterface<T>`. The older `getLibrary` helper behind the bidder
  interface, win cost model and exchange source factories. All of them
  share the convention that a miss loads "lib<name>_<suffix>.so" once and
  looks again.
- **`WinCostModel`.** Its evaluation, JSON and binary serialisation, and
  its model registry.
- **The bankers.** The `SlaveBanker`: synchronisation with the master
  banker, the aggregator of `syncAll`, budget reauthorisation and health.
  The `LocalBanker`, which talks to the Go banker: account registration and
  retry, reauthorisation and spend reports.
- **Exchange and bidder logic.** The Casale exchange connector's campaign
  check and seat-bid grouping, as in the seatbid/bid objects of
  section 4.2 of OpenRTB 2.1. The HTTP bidder interface: request
  preparation, validation of the bidder's reply, win and event
  notifications, pings.
- **Passback framing.** A CRC-32 digest appended to the AES-128/CFB
  ciphertext, which is Base16-encoded as in section 8 of RFC 4648.
- **Analytics.** The usage-metric bookkeeping and event naming of the ZMQ
  analytics plugin.
- **Example agents.** The three example bid agents (node.js, tornado
  Python, httpapi Python) and their shared OpenRTB response builder.
- **`to_junit.py`.** The script that turns test output into a JUnit report.

There is one module per source file, plus four shared modules:

- `Wrappers`: `Option` and `Result`.
- `Json`: an abstract JSON value with jsoncpp's accessors.
- `Text`: decimal rendering, and Python's `split`, `strip` and `replace`.
- `Loader`: the library naming convention.

Everything that does I/O or draws randomness is a parameter of the operation
that uses it:

- `dlopen` and its registrations;
- HTTP and ZMQ transport;
- the master and Go bankers' replies;
- clocks;
- the random pool;
- AES and CRC-32;
- JSON printing and parsing.

Asynchronous callbacks are explicit event functions. Time is an integer
number of milliseconds.

jsoncpp conversions follow the library this code was built against:

- `asString` reads null as "", and booleans as "true" or "false".
- Numbers, arrays and objects cannot be converted to a string.
- Objects keep their members in iteration order.

## Model

| member | source | states |
|---|---|---|
| Loader.LibPath | rtbkit/common/plugin_table.cc:105 | The library path for a name and suffix is "lib" + name + "_" + suffix + ".so"; its length is the two parts plus seven. |
| PluginTable.Write | rtbkit/common/plugin_table.cc:40-66 | Only an empty name is rejected (the second guard re-tests the name). A taken key leaves the table exactly as it was. A fresh key adds exactly that entry, holding the type name and the functor, and keeps every other entry. |
| PluginTable.Register | rtbkit/common/plugin_table.h:75-85 | A library's registrations are written in order and only add entries; every existing key keeps its entry. A registration with an empty name throws inside the static initializer, which terminates the process: the only error the load can end in is `Terminated`, and a first registration with an empty name stores nothing. |
| PluginTable.RegisterStopsAtEmptyName | rtbkit/common/plugin_table.cc:44-47 | The registrations before the first empty name take effect. That one terminates the process (`Terminated`), and the ones after it are never made. |
| PluginTable.LoadLib | rtbkit/common/plugin_table.cc:119-134 | An empty path is rejected. A failed load fails with the path. A successful load leaves the table with the library's registrations written, and ends in `Terminated` if one of them threw. |
| PluginTable.Read | rtbkit/common/plugin_table.cc:69-116 | An empty name is rejected. A hit returns the stored functor with no load. A miss loads "lib<name>_<suffix>.so" exactly once. A failed load propagates its error. A library whose initializer threw ends the read in `Terminated`, the process's termination. Otherwise the read succeeds if and only if the second lookup finds the entry, and else fails with "couldn't get requested plugin". Existing entries are never changed. |
| PluginTable.ReadAfterWrite | rtbkit/common/plugin_table.cc:54-99 | A functor written under a fresh (name, type name) is returned by the next read of that pair, with no load. |
| PluginTable.EmptyRegistrationTerminates | rtbkit/common/plugin_table.cc:44-47 | A library that registers an empty name before the requested plugin terminates the process during the read's load; the plugin never reaches the table. |
| PluginTable.WriteKeepsFirst | rtbkit/common/plugin_table.cc:61-65 | A second write under a taken key succeeds silently and changes nothing, and reads keep returning the first functor. |
| PluginTable.EmptyTypeNameAccepted | rtbkit/common/plugin_table.cc:45-50 | An empty type name passes both guards; the entry is stored and read back. |
| PluginTable.WritePreservesKeysConsistent | rtbkit/common/plugin_table.cc:54-58 | Every stored key is some name joined with the entry's own type name, and a write keeps this true. |
| PluginTable.RegisterPreservesKeysConsistent | rtbkit/common/plugin_table.h:75-85 | A library's registrations keep the key invariant. |
| PluginTable.ReadPreservesKeysConsistent | rtbkit/common/plugin_table.cc:83-112 | A read, including the load it may trigger, keeps the key invariant. |
| PluginTable.RejectedEntryMeansKeyCollision | rtbkit/common/plugin_table.cc:93-98 | The type check rejects a found entry only when another (name, type name) pair was joined into the same key. |
| PluginTable.KeyCollisionHidesPlugin | rtbkit/common/plugin_table.cc:54-65 | ("a__b", "c") and ("a", "b__c") share a key. The second registration is silently dropped, and reading it back fails whatever the load does. |
| PluginTable.KeysOfOneNameDiffer | rtbkit/common/plugin_table.h:34-43 | Under one name, different type names never share a key. |
| PluginTable.RegisterPlugin | rtbkit/common/plugin_table.h:73-85 | Succeeds exactly when the name is non-empty. A fresh key then holds the functor tagged with its type's name. |
| PluginTable.GetPlugin | rtbkit/common/plugin_table.h:89-99 | A returned functor is the entry stored under the name and the requested type's tag. |
| PluginTable.RegisterThenGet | rtbkit/common/plugin_table.h:75-99 | Registering and then getting with the same type and name returns the registered functor, with no load. |
| PluginTable.TwoTypesTwoEntries | rtbkit/common/plugin_table.h:75-99 | One name registered with two functor types gives two independent entries, and each type gets back its own functor. |
| PluginInterface.RegisterPlugin | rtbkit/common/plugin_interface.h:17-22 | Succeeds exactly when the name is non-empty. The factory is then findable under the capability's factory type. |
| PluginInterface.GetPlugin | rtbkit/common/plugin_interface.h:24-28 | A miss loads the library named with the capability's own suffix. A returned factory is the entry stored under the factory type. |
| PluginInterface.ZmqAnalyticsLibrary | rtbkit/common/plugin_interface.h:24-28 | An unregistered analytics plugin "zmq" is looked for in "libzmq_analytics.so" and nowhere else. |
| PluginInterface.RegisterThenGetPlugin | rtbkit/common/plugin_interface.h:17-28 | Registering through the interface and then getting through it returns the factory, with no load. |
| Injection.RegisterUnique | rtbkit/common/testing/exchange_source.cc:228-232 | A registry refuses a name it already holds; the exchange-source, bidder-interface (rtbkit/common/bidder_interface.cc:64-68) and win-cost-model (rtbkit/common/win_cost_model.cc:144-154) registrations all behave this way. Otherwise it adds exactly that name and keeps every other entry. |
| Injection.Install | rtbkit/common/injection.h:23-34 | A loaded library's registrations run in order and only add names to the live registry. The load terminates the process exactly when some registration names a key already present, counting earlier registrations of the same load; otherwise every registration is present with its entry. |
| Injection.InstallOne | rtbkit/common/injection.h:31-34 | A library that registers one fresh name adds exactly that entry and does not terminate. |
| Injection.DuplicateTerminates | rtbkit/common/testing/exchange_source.cc:228-232 | A library whose first registration repeats a registered name terminates the process with the registry unchanged; the registrations after it never run. |
| Injection.GetLibraryAsWritten | rtbkit/common/injection.h:10-37 | The result succeeds if and only if the name was in the map passed by value. A hit loads nothing. A miss loads "lib<name>_<suffix>.so" once. A failed load reports the suffix and the path. A successful load still ends in "couldn't find <errMsg> named <name>". |
| Injection.GetLibrary | rtbkit/common/injection.h:16-36 | The corrected lookup. A hit loads nothing and a miss loads once. A load whose registration threw ends in `Terminated`. After a successful load it succeeds if and only if the live registry, updated by the load, holds the name, and it returns that entry. |
| Injection.LoadedEntryNotFoundAsWritten | rtbkit/common/injection.h:13 | A load that registers the requested name still fails as written, although a retry finds the entry. The corrected lookup finds it on the first call. |
| Injection.AsWrittenSuccessAgrees | rtbkit/common/injection.h:17-21 | Whenever the as-written lookup succeeds, the corrected one gives the identical outcome. |
| Injection.RegisterThenGetLibrary | rtbkit/common/injection.h:17-21 | A registered name is returned by the lookup, with no load. |
| Injection.Bind | rtbkit/common/win_cost_model.cc:30-36 | A bound getter holds the registry as it was when it was built. |
| Injection.LaterRegistrationInvisible | rtbkit/common/testing/exchange_source.cc:220-226 | A getter bound before a name is registered never resolves that name, although a lookup in the live registry does. |
| WinCostModel.StartupRegistry | rtbkit/common/win_cost_model.cc:48-53 | After static initialisation the registry holds exactly the model "none", and it is not empty. |
| WinCostModel.BoundAtStartup | rtbkit/common/win_cost_model.cc:28-36 | The getter copies the model map while it is still empty, because it is initialised before `atInit` runs. |
| WinCostModel.EvaluateAsWritten | rtbkit/common/win_cost_model.cc:69-83 | An unnamed model charges the price. A named model succeeds exactly when the getter's copy holds a non-empty model under that name, and then charges what it computes. An empty entry fails with "win cost model '<name>' not found". |
| WinCostModel.NamedModelsNeverResolve | rtbkit/common/win_cost_model.cc:21-83 | With the getter as built, every named model fails to evaluate, including "none", which the registry does hold. |
| WinCostModel.Evaluate | rtbkit/common/win_cost_model.cc:69-83 | The corrected evaluation. An unnamed model charges the price. A registered model charges what it computes, and an empty registered entry is "not found". A named model succeeds exactly when the live lookup (with its on-demand load) returns a non-empty model. |
| WinCostModel.NoneModelChargesPrice | rtbkit/common/win_cost_model.cc:39-54 | The model "none" charges the win price, whatever its data. |
| WinCostModel.RegisteredModelEvaluates | rtbkit/common/win_cost_model.cc:76-82 | A model registered later is found by the live lookup and charges what it computes. An empty model registered under the name is reported as not found. |
| WinCostModel.ToJson | rtbkit/common/win_cost_model.cc:85-97 | The JSON is null exactly for an unnamed model. Otherwise it holds the name, and holds "data" exactly when the data is non-empty. |
| WinCostModel.FromJson | rtbkit/common/win_cost_model.cc:99-117 | A first member other than "name" or "data" is reported as an unknown field. A successful read saw only those two members. A value with nothing to iterate gives the default model. |
| WinCostModel.FromMembers | rtbkit/common/win_cost_model.cc:105-114 | The member loop fails at the first unknown field, and succeeds only when every member is "name" or "data". |
| WinCostModel.FromJsonToJson | rtbkit/common/win_cost_model.cc:85-117 | Reading back the JSON of a model gives the model, except that an unnamed model loses its data and empty data becomes null. |
| WinCostModel.JsonRoundTripExactIffNormal | rtbkit/common/win_cost_model.cc:85-117 | The JSON round trip is exact if and only if the model is already in that normal form. |
| WinCostModel.Serialize | rtbkit/common/win_cost_model.cc:119-125 | The record is three items: version 1, the name, and a text that the codec parses back to the data whenever the codec round-trips it. |
| WinCostModel.ReadVersion1 | rtbkit/common/win_cost_model.cc:132-138 | The version-1 payload consumes exactly two items. |
| WinCostModel.ReconstituteAsWritten | rtbkit/common/win_cost_model.cc:127-142 | A record of any other version succeeds, leaves the object unchanged, and consumes only the version. |
| WinCostModel.WrongVersionSwallowed | rtbkit/common/win_cost_model.cc:139-141 | A version-2 record is accepted with nothing read, and its name and text are left unread in the stream. |
| WinCostModel.Reconstitute | rtbkit/common/win_cost_model.cc:127-142 | The corrected reader. A wrong version is an error carrying that version. A successful read consumes exactly one three-item record. |
| WinCostModel.ReconstituteSerialize | rtbkit/common/win_cost_model.cc:119-142 | Reading what was serialised gives the model back and leaves the rest of the stream, whatever object is read into. |
| WinCostModel.ReconstituteAgreesOnVersion1 | rtbkit/common/win_cost_model.cc:131-138 | The as-written and corrected readers agree on every version-1 record. |
| BidderInterface.New | rtbkit/common/bidder_interface.cc:14-26 | A new interface has the given service name and no router or bridge wired. |
| BidderInterface.SetInterfaceName | rtbkit/common/bidder_interface.cc:28-30 | Only the interface name changes, and it becomes the given name. |
| BidderInterface.InterfaceNameRoundTrip | rtbkit/common/bidder_interface.cc:28-34 | A name that is set is the name read back. |
| BidderInterface.Init | rtbkit/common/bidder_interface.cc:36-39 | Wires the router and the bridge, and keeps the service and interface names. |
| BidderInterface.ServiceNameFor | rtbkit/common/bidder_interface.cc:77-79 | A caller-given service name wins. Otherwise a "serviceName" member of the configuration is read as a string (an error when it is not one), and "bidder" is used when there is none. |
| BidderInterface.Create | rtbkit/common/bidder_interface.cc:56-82 | The source's by-value lookup is used. A "type" that cannot be read as a string is an error. A type not already registered fails to resolve, whatever the load does. A registered type succeeds exactly when the service name resolves, and builds with that type's factory, the resolved service name and the configuration. |
| BidderInterface.CreateRegistered | rtbkit/common/bidder_interface.cc:56-82 | A configuration whose type is registered is built by that factory, and the source's by-value lookup returns the same factory. |
| BidderInterface.CreateLoadedTypeFails | rtbkit/common/bidder_interface.cc:56-82 | A type that only its library registers fails the first create with "couldn't find bidder named <type>", although the corrected lookup finds the entry the load registered. |
| BidderInterface.CreateNamedByConfig | rtbkit/common/bidder_interface.cc:75-79 | Without a caller-given name, the interface is built with the configuration's "serviceName". |
| BidderInterface.CreateDefaults | rtbkit/common/bidder_interface.cc:75-79 | An empty configuration uses the factory "unknown" and the service name "bidder". |
| ExchangeSource.Forever | rtbkit/common/testing/exchange_source.cc:110-116 | A source built from an address alone bids forever and has sent nothing. |
| ExchangeSource.WithLifetime | rtbkit/common/testing/exchange_source.cc:119-125 | A source built with a lifetime is finite, has that lifetime, and has sent nothing. |
| ExchangeSource.FromJson | rtbkit/common/testing/exchange_source.cc:128-139 | The address is the configuration's "url" read as a string. The source is finite exactly when "lifetime" is present, and the lifetime is that member read as a 32-bit integer. Without "lifetime" it is the forever source for that URL. |
| ExchangeSource.SendBidRequest | rtbkit/common/testing/exchange_source.cc:149-154 | Sending counts exactly one more request and changes nothing else. |
| ExchangeSource.ForeverNeverDone | rtbkit/common/testing/exchange_source.cc:142-154 | A source that bids forever is not done before or after a send. |
| ExchangeSource.SendUntilDone | rtbkit/common/testing/exchange_source.cc:142-154 | Sending until done from a finite source sends exactly the lifetime minus the count (none when already done), and then the source is done. |
| ExchangeSource.LifetimeExhausted | rtbkit/common/testing/exchange_source.cc:119-154 | A fresh source with lifetime n is done after k requests if and only if k >= n. |
| ExchangeSource.SentCount | rtbkit/common/testing/exchange_source.cc:149-154 | k requests add exactly k to the count. |
| ExchangeSource.Build | rtbkit/common/testing/exchange_source.cc:235-239 | Building succeeds exactly when the configured type reads as a string and is in the getter's copy of the registry. It then returns that factory applied to the configuration. |
| ExchangeSource.CreateBidSource | rtbkit/common/testing/exchange_source.cc:235-239 | A bid source is built exactly when its type is in the bound getter's copy of the registry; there is no "none" case. |
| ExchangeSource.CreateAdserverSource | rtbkit/common/testing/exchange_source.cc:258-294 | Type "none" gives no source and no lookup. Any other type succeeds exactly when it is in the getter's copy, and the source is that factory's. |
| ExchangeSource.NoneTypeOnlyForWinAndEvent | rtbkit/common/testing/exchange_source.cc:235-294 | An unregistered bid-source type "none" fails after trying "libnone_bid request.so". Win and event sources of type "none" are simply absent. |
| ExchangeSource.BidGetterAtStartup | rtbkit/common/testing/exchange_source.cc:213-226 | The bid-factory getter copies the bid-factory map when it is initialised, while the map is still empty; it loads "bid request" libraries. |
| ExchangeSource.WinGetterAtStartup | rtbkit/common/testing/exchange_source.cc:214-249 | The win-factory getter copies the still-empty win-factory map and loads "adserver" libraries. |
| ExchangeSource.EventGetterAtStartup | rtbkit/common/testing/exchange_source.cc:215-277 | The event-factory getter copies the still-empty event-factory map and loads "adserver" libraries. |
| ExchangeSource.BidSourcesNeverCreated | rtbkit/common/testing/exchange_source.cc:213-239 | With the getter as built, creating a bid source fails for every configuration. A type that reads loads its library once, and that library's registrations never reach the copy. |
| ExchangeSource.AdserverSourcesOnlyNone | rtbkit/common/testing/exchange_source.cc:243-294 | With the getters as built, a win or event source is created exactly when its type is "none", and then there is no source. |
| ExchangeSource.BuildLive | rtbkit/common/testing/exchange_source.cc:235-239 | The corrected build resolves the type in the live registry with the on-demand load. It succeeds exactly when that lookup does, and then returns the resolved factory applied to the configuration. A registered type is built by its factory. |
| ExchangeSource.CreateBidSourceLive | rtbkit/common/testing/exchange_source.cc:235-239 | The corrected bid-source creation succeeds exactly when the live lookup of the type succeeds. A registered type is built by its factory. |
| ExchangeSource.CreateAdserverSourceLive | rtbkit/common/testing/exchange_source.cc:258-294 | The corrected win and event creation. Type "none" gives no source. Any other type succeeds exactly when the live lookup succeeds, and a registered type is built by its factory. |
| ExchangeSource.LiveAgreesWithBound | rtbkit/common/testing/exchange_source.cc:220-294 | Wherever a getter bound to a registry builds a source, the live creation over that registry gives the identical result. |
| ExchangeSource.LoadedFactoryBuilds | rtbkit/common/testing/exchange_source.cc:228-294 | A factory that the type's library registers on load builds the source on the first live call. The getters as built fail for the same configuration. |
| SlaveBanker.Init | rtbkit/core/banker/slave_banker.cc:98-166 | An empty account suffix is an error. Otherwise a zero spend rate is an error. Otherwise the banker keeps the suffix and spend rate, starts idle with no accounts, and schedules spend reports and budget reauthorisation every second. |
| SlaveBanker.CompletionCallsAsWritten | rtbkit/core/banker/slave_banker.cc:177-235 | When the master answers and the merge throws, `onDone` is called twice: first with the exception, then with no error. |
| SlaveBanker.CompletionCalls | rtbkit/core/banker/slave_banker.cc:177-235 | The corrected handler calls `onDone` exactly once. It reports no error exactly when the master answered and the merge succeeded, and a failed request's own exception otherwise. |
| SlaveBanker.CompletionAgreesUnlessMergeThrows | rtbkit/core/banker/slave_banker.cc:187-206 | The as-written and corrected handlers differ exactly when the merge throws. |
| SlaveBanker.Step | rtbkit/core/banker/slave_banker.cc:317-336 | One completion adds one to the finished count and keeps the total. |
| SlaveBanker.Feed | rtbkit/core/banker/slave_banker.cc:317-336 | Each completion gives one signal, and the finished count grows by the number of completions. |
| SlaveBanker.FeedSignals | rtbkit/core/banker/slave_banker.cc:317-336 | The i-th completion fires exactly when it brings the count to the total, and reports the latest exception seen so far. |
| SlaveBanker.AggregatorFiresOnce | rtbkit/core/banker/slave_banker.cc:294-339 | A fresh aggregator fed one completion per account is quiet until the last one, which fires with the latest exception. |
| SlaveBanker.AllCalls | rtbkit/core/banker/slave_banker.cc:343-347 | With the corrected handlers, a whole sync makes one completion per account. |
| SlaveBanker.SyncAllFiresAtLastReply | rtbkit/core/banker/slave_banker.cc:294-347 | With the corrected handlers, `syncAll` completes exactly once, when the last account's reply has been handled. |
| SlaveBanker.EarlyFireAsWritten | rtbkit/core/banker/slave_banker.cc:187-206 | As written, a throwing merge on the first of two accounts makes `syncAll` complete before the second reply is handled, and a third completion arrives after that. |
| SlaveBanker.Initialized | rtbkit/core/banker/slave_banker.cc:273-280 | Keeps exactly the initialised keys. |
| SlaveBanker.SyncAll | rtbkit/core/banker/slave_banker.cc:269-348 | With no initialised account, the sync completes at once and records the time. Otherwise it waits on a fresh aggregator whose total is the number of initialised accounts, and it syncs exactly those accounts. |
| SlaveBanker.AfterSignal | rtbkit/core/banker/slave_banker.cc:322-326 | The sync time is recorded exactly when the aggregator fires without an exception. Nothing else changes. |
| SlaveBanker.AddSpendAccount | rtbkit/core/banker/slave_banker.cc:350-382 | The account is added. Initialisation is requested exactly when the account is new. |
| SlaveBanker.AddSpendAccountIdempotent | rtbkit/core/banker/slave_banker.cc:356-363 | Adding an account a second time changes nothing and requests nothing. |
| SlaveBanker.Requests | rtbkit/core/banker/slave_banker.cc:446-468 | One balance request per initialised account, in order, each carrying the spend rate. |
| SlaveBanker.ReauthorizeTickAsWritten | rtbkit/core/banker/slave_banker.cc:409-473 | While reauthorising, a tick does nothing. Otherwise it raises the flag whatever the number of accounts, and asks about every initialised account. |
| SlaveBanker.ReauthorizeTick | rtbkit/core/banker/slave_banker.cc:409-473 | The corrected tick raises the flag exactly when there is at least one account to ask about. |
| SlaveBanker.OnReauthorizeBudgetMessage | rtbkit/core/banker/slave_banker.cc:475-490 | A transport exception aborts. A 200 reply merges its body into that account. Any other code is ignored. |
| SlaveBanker.OnAccountDone | rtbkit/core/banker/slave_banker.cc:453-489 | A transport error aborts. When the 200 handler throws (parse, `fromJson` or the merge), the callback ends before the pending count drops: banker and operation are unchanged. Any other reply is one answer counted as in `OnAnswer`. |
| SlaveBanker.OnAnswer | rtbkit/core/banker/slave_banker.cc:453-461 | One answer lowers the pending count by one. The last answer lowers the flag and counts one more completed reauthorisation. Earlier answers change nothing. |
| SlaveBanker.Answers | rtbkit/core/banker/slave_banker.cc:453-461 | n answers lower the pending count by n. |
| SlaveBanker.AnswersComplete | rtbkit/core/banker/slave_banker.cc:423-461 | After every account has answered, the flag is down and exactly one more reauthorisation is counted. Before that the banker is unchanged. |
| SlaveBanker.ThrowingLastAnswerKeepsFlag | rtbkit/core/banker/slave_banker.cc:418-489 | A one-account reauthorisation whose 200 reply cannot be merged stays pending with the flag raised, so every later tick is skipped. |
| SlaveBanker.CleanLastAnswerCompletes | rtbkit/core/banker/slave_banker.cc:423-461 | The same single answer without a throw completes the operation: the flag drops and one more reauthorisation is counted. |
| SlaveBanker.StuckReauthorizing | rtbkit/core/banker/slave_banker.cc:418-473 | As written, a tick with no accounts leaves the flag up with no request in flight, so every later tick sends nothing, even once accounts exist. |
| SlaveBanker.NoStuckReauthorizing | rtbkit/core/banker/slave_banker.cc:418-473 | With the corrected tick, the flag stays down when there is nothing to ask, and the next tick asks about every account. |
| SlaveBanker.ProviderIndicators | rtbkit/core/banker/slave_banker.cc:502-518 | The indicator is named after the account suffix. It is healthy exactly when the last sync is less than three seconds old, and its message ends in OK or ERROR to match. |
| SlaveBanker.HealthyAfterSync | rtbkit/core/banker/slave_banker.cc:322-326 | After an error-free sync, the indicator is healthy for exactly three seconds. |
| LocalBanker.New | rtbkit/core/banker/local_banker.cc:17-20 | A new banker has no accounts and nothing unconfirmed. |
| LocalBanker.Periodics | rtbkit/core/banker/local_banker.cc:49-55 | Unconfirmed accounts are always retried every second. A router reauthorises every second. A post-auction banker reports spend every half second. Exactly two jobs are installed. |
| LocalBanker.FullKey | rtbkit/core/banker/local_banker.cc:73 | The banker key is the campaign key, then ":", then the suffix, and both parts can be read back from it. |
| LocalBanker.AccountPost | rtbkit/core/banker/local_banker.cc:111-122 | The creation request goes to /accounts with a one-second timeout, carrying the account name and the banker's account type. |
| LocalBanker.AddAccountImpl | rtbkit/core/banker/local_banker.cc:77-123 | A known account is dropped from the unconfirmed set and no request is sent. An unknown one becomes unconfirmed and gets one creation request. The accounts themselves do not change. |
| LocalBanker.AddAccount | rtbkit/core/banker/local_banker.cc:70-75 | The same as `AddAccountImpl`, applied to the banker key built from the campaign key and the banker's suffix. |
| LocalBanker.OnAccountReply | rtbkit/core/banker/local_banker.cc:90-109 | A non-200 reply changes nothing. A 200 reply adds the account from the body and confirms the key. |
| LocalBanker.InitializeAccountsTick | rtbkit/core/banker/local_banker.cc:38-47 | After the retry, exactly the unconfirmed keys that are still unknown remain unconfirmed. Each of them got exactly one creation request. The accounts are unchanged. |
| LocalBanker.TickStep | rtbkit/core/banker/local_banker.cc:44-46 | One step of the retry loop keeps the loop's unconfirmed-set invariant. |
| LocalBanker.Enumerate | rtbkit/core/banker/local_banker.cc:148-153 | The iteration visits every account exactly once. |
| LocalBanker.Names | rtbkit/core/banker/local_banker.cc:190-195 | One name string per account, in iteration order. |
| LocalBanker.ReauthorizePost | rtbkit/core/banker/local_banker.cc:186-197 | The reauthorisation posts an array of the account names to /reauthorize/1 with a two-second timeout. |
| LocalBanker.Rendered | rtbkit/core/banker/local_banker.cc:148-153 | One JSON rendering per account, in iteration order. |
| LocalBanker.SpendUpdatePost | rtbkit/core/banker/local_banker.cc:144-155 | The spend update posts every account's JSON to /spendupdate with a half-second timeout. |
| LocalBanker.PeriodicPost | rtbkit/core/banker/local_banker.cc:32-37 | A router's periodic post names every account exactly once. A post-auction banker's periodic post renders every account exactly once. |
| LocalBanker.BalanceOf | rtbkit/core/banker/local_banker.cc:175-177 | An accepted entry gives the name read as a string and the balance read as a 32-bit integer. |
| LocalBanker.ApplyBalances | rtbkit/core/banker/local_banker.cc:175-181 | The pass fails exactly when some entry cannot be read (not an object or null, a name that is not a string, a balance that is not a 32-bit integer). A first entry that cannot be read fails at once and leaves the accounts unchanged. |
| LocalBanker.ApplyBalancesInOrder | rtbkit/core/banker/local_banker.cc:175-181 | Entries that read as the pairs p are applied in order, like `updateBalance` folded over p. When every entry reads, the pass succeeds with that result. When the entry after p cannot be read, the balances of p stay applied and its error is reported. |
| LocalBanker.ApplyBalancesAppend | rtbkit/core/banker/local_banker.cc:175-181 | A reply split in two is the first part applied, then, unless it stopped on an error, the second part applied to its result. |
| LocalBanker.OnReauthorizeReply | rtbkit/core/banker/local_banker.cc:161-183 | A non-200 reply changes nothing. A body that does not parse is an error and changes nothing. A parsed body succeeds exactly when every entry can be read. The unconfirmed set, the account type and the suffix are never changed. |
| LocalBanker.ReauthorizeAppliesInOrder | rtbkit/core/banker/local_banker.cc:161-183 | A 200 reply whose entries all read succeeds and applies each balance in order. If an entry cannot be read, the balances before it stay applied and that entry's error is reported. |
| LocalBanker.ReauthorizeOneAccount | rtbkit/core/banker/local_banker.cc:167-181 | A reply listing one account applies exactly that account's balance. |
| LocalBanker.AddAccountThenConfirm | rtbkit/core/banker/local_banker.cc:70-123 | Adding a new campaign account requests it under its banker key and marks it unconfirmed. A 200 reply confirms it; a 404 reply changes nothing. |
| LocalBanker.FullKeyInjective | rtbkit/core/banker/local_banker.cc:73 | Distinct campaign keys under one suffix give distinct banker keys. |
| LocalBanker.BidWinConsultAddedAccount | rtbkit/core/banker/local_banker.cc:70-210 | The creation request `addAccount` sends names the banker key, and `bid` and `win` query that same key in the accounts the 200 reply added. |
| LocalBanker.BidIgnoresOtherAccounts | rtbkit/core/banker/local_banker.cc:200-206 | With an account store that checks only the named account, changing another campaign's account does not change a bid's answer. |
| Casale.CampaignCompatibility | rtbkit/plugins/exchange/casale_exchange_connector.cc:55-97 | A campaign is compatible exactly when its provider configuration holds, under the exchange name, a "seat" that is an unsigned 32-bit integer no larger than the seat bound. The seat is then kept. An incompatible campaign carries one reason when reasons are asked for, and none otherwise. |
| Casale.SeatAccepted | rtbkit/plugins/exchange/casale_exchange_connector.cc:84-96 | A configuration with an in-range seat is accepted with exactly that seat. |
| Casale.DecodeAdm | rtbkit/plugins/exchange/casale_exchange_connector.cc:39-51 | Accepted markup is the field read as a string, and it is never empty. Empty markup is rejected. |
| Casale.MakeBid | rtbkit/plugins/exchange/casale_exchange_connector.cc:165-172 | The bid targets the spot's impression. Its id pairs the auction id with the first impression's id. It carries the agent, the creative and the maximum price. |
| Casale.IndexOfSeat | rtbkit/plugins/exchange/casale_exchange_connector.cc:138 | The position of the first seat bid for the seat, or -1 exactly when no seat bid has that seat. |
| Casale.SetSeatBid | rtbkit/plugins/exchange/casale_exchange_connector.cc:117-174 | A seat without a seat bid gets a new one at the end, holding just the bid. Otherwise the bid is appended to that seat's list and every other seat bid is unchanged. |
| Casale.CountBidsAppend | rtbkit/plugins/exchange/casale_exchange_connector.cc:143-157 | The bid count of two seat-bid lists put together is the sum of their counts. |
| Casale.CountBids | rtbkit/plugins/exchange/casale_exchange_connector.cc:143-157 | The count is zero exactly when every seat bid is empty, and no seat bid holds more bids than the count. |
| Casale.CountBidsUpdate | rtbkit/plugins/exchange/casale_exchange_connector.cc:151-157 | Replacing one seat bid changes the bid count by the difference in that seat bid's size. |
| Casale.SetSeatBidInvariant | rtbkit/plugins/exchange/casale_exchange_connector.cc:137-157 | Filing a bid keeps at most one seat bid per seat and adds exactly one bid. |
| Casale.TwoBidsOneSeat | rtbkit/plugins/exchange/casale_exchange_connector.cc:137-157 | Two bids for one seat share one seat bid, in filing order. |
| Casale.FixedHeaders | rtbkit/plugins/exchange/casale_exchange_connector.cc:105-109 | The header names are kept. A version of "2.0" becomes "2.1". Every other header is unchanged. |
| Casale.FixedHeadersIdempotent | rtbkit/plugins/exchange/casale_exchange_connector.cc:105-109 | Rewriting the headers a second time changes nothing. |
| Casale.ParseBidRequest | rtbkit/plugins/exchange/casale_exchange_connector.cc:99-115 | The corrected parse hands the OpenRTB parser version "2.1" where the request said "2.0", and the headers unchanged otherwise. |
| Casale.ParseBidRequestAsWritten | rtbkit/plugins/exchange/casale_exchange_connector.cc:99-115 | The parse as written agrees with the corrected one unless the version header is "2.0". A "2.0" request reaches the parser with its original headers. |
| Casale.Version20ForwardedUnchanged | rtbkit/plugins/exchange/casale_exchange_connector.cc:105-111 | As written, a "2.0" request reaches the parser still marked "2.0". The corrected parse passes "2.1". |
| HttpBidderInterface.HttpErrorString | rtbkit/plugins/bidder_interface/http_bidder_interface.cc:21-35 | The five known codes are named "HttpClientError::<code>". Any other code fails the "Invalid code path" check. |
| HttpBidderInterface.HttpErrorStringInjective | rtbkit/plugins/bidder_interface/http_bidder_interface.cc:21-35 | Different known codes get different names. |
| HttpBidderInterface.ParseConfig | rtbkit/plugins/bidder_interface/http_bidder_interface.cc:46-69 | The router host and path and the ad-server host are read as strings, and the win and event ports as 32-bit integers. The configuration is valid if and only if all five conversions succeed; any failing one makes it invalid. |
| HttpBidderInterface.ParseConfigJson | rtbkit/plugins/bidder_interface/http_bidder_interface.cc:51-56 | Every configuration with 32-bit ports is read back exactly from its JSON document. |
| HttpBidderInterface.EndpointsDiffer | rtbkit/plugins/bidder_interface/http_bidder_interface.cc:74-80 | The win and event endpoints differ if and only if the two ports differ. |
| HttpBidderInterface.HttpFactory | rtbkit/plugins/bidder_interface/http_bidder_interface.cc:395-402 | The registered factory builds an interface with the given service name and the parsed configuration. |
| HttpBidderInterface.HttpRegistration | rtbkit/plugins/bidder_interface/http_bidder_interface.cc:395-402 | Registering "http" succeeds on a registry without it. A configuration of type "http" is then built by this factory. |
| HttpBidderInterface.TagSpotsSpec | rtbkit/plugins/bidder_interface/http_bidder_interface.cc:340-348 | Tagging one agent's spots succeeds exactly when every spot is in range. Each impression then gets the agent's external id once per occurrence of its index. |
| HttpBidderInterface.TagSpots | rtbkit/plugins/bidder_interface/http_bidder_interface.cc:340-348 | Tagging keeps every impression and its id. A first spot out of range fails with "adSpotIndex out of range". |
| HttpBidderInterface.TagRequestSpec | rtbkit/plugins/bidder_interface/http_bidder_interface.cc:332-352 | Tagging succeeds exactly when every bidder's spots are in range. Each impression then carries, after its own ids, the external id of every agent bidding on it, once per bid, in bidder order. |
| HttpBidderInterface.TagRequest | rtbkit/plugins/bidder_interface/http_bidder_interface.cc:332-352 | Tagging keeps every impression and its id. A first bidder with a spot out of range fails the whole request. |
| HttpBidderInterface.PrepareRequest | rtbkit/plugins/bidder_interface/http_bidder_interface.cc:332-373 | A spot index outside the request's impressions fails with "adSpotIndex out of range". A request with no time left is not sent. A ready request has the tagged impressions and `tmax` reduced by the processing time, still positive. With time left, it is ready exactly when the processing time is not negative. |
| HttpBidderInterface.FindAgent | rtbkit/plugins/bidder_interface/http_bidder_interface.cc:103-121 | Finds an agent exactly when some bidder's agent has the external id, and returns the first such bidder with its configuration. |
| HttpBidderInterface.IndexOf | rtbkit/plugins/bidder_interface/http_bidder_interface.cc:179-192 | The first position holding the value, or -1 exactly when no position holds it. |
| HttpBidderInterface.ImpIds | rtbkit/plugins/bidder_interface/http_bidder_interface.cc:191-192 | The impression ids, position by position. |
| HttpBidderInterface.HandleBid | rtbkit/plugins/bidder_interface/http_bidder_interface.cc:157-206 | A bid without "external-id" is rejected. A bid is accepted if and only if its external id is an integer of a bidding agent, its creative is one of that agent's and its impression one of the request's. Each failing check, taken in the source's order, gives its own error. An accepted bid uses the first matching creative and spot indices and keeps the bid's price with priority 0. |
| HttpBidderInterface.HandleBids | rtbkit/plugins/bidder_interface/http_bidder_interface.cc:155-208 | Bids are submitted in order up to the first bad one. That bid's error is reported and the rest are not handled. Without an error, every bid is submitted. |
| HttpBidderInterface.OnAuctionReply | rtbkit/plugins/bidder_interface/http_bidder_interface.cc:137-211 | A transport error submits nothing and is reported. A non-200 status is ignored. A parsed 200 body is handled bid by bid across all seats. |
| HttpBidderInterface.BidSubmittedAtFirstMatch | rtbkit/plugins/bidder_interface/http_bidder_interface.cc:180-206 | Given the first index of the bid's creative in the agent's list and the first impression with its id, the bid is submitted as exactly that agent's bid at those indices. |
| HttpBidderInterface.GoodBidSubmitted | rtbkit/plugins/bidder_interface/http_bidder_interface.cc:157-206 | A bid naming a bidding agent's external id, its creative and a request impression is submitted as that agent's bid on that spot. |
| HttpBidderInterface.SubmitBids | rtbkit/plugins/bidder_interface/http_bidder_interface.cc:375-387 | The router message is the agent, "BID", the auction id, the written bids and the written win cost model. |
| HttpBidderInterface.SendPing | rtbkit/plugins/bidder_interface/http_bidder_interface.cc:317-330 | Levels other than 0 and 1 fail the check. Otherwise the reply is PONG0 or PONG1 with the same sent and received time. |
| HttpBidderInterface.SendWinLoss | rtbkit/plugins/bidder_interface/http_bidder_interface.cc:227-257 | A loss posts nothing. A win posts to the win endpoint exactly five members: auction id, impression id, price, timestamp and user ids. |
| HttpBidderInterface.SendCampaignEvent | rtbkit/plugins/bidder_interface/http_bidder_interface.cc:264-289 | The event is posted to the event endpoint with exactly four members: auction id, impression id, timestamp, and the label as "type". |
| HttpBidderInterface.OnAdserverReply | rtbkit/plugins/bidder_interface/http_bidder_interface.cc:230-240 | A transport error raises with the code's name. No error does nothing. |
| Passback.HexValue | rtbkit/plugins/exchange/passback_encryption.cc:104-112 | Every digit the encoder emits reads back as its own value, and every accepted digit is below 16. |
| Passback.HexEncode | rtbkit/plugins/exchange/passback_encryption.cc:94-102 | The encoding is exactly twice as long as the bytes. |
| Passback.HexDecode | rtbkit/plugins/exchange/passback_encryption.cc:104-112 | The result is always half as long as the text. The object's decoder is fed the text; the result is its first bytes, and what it holds beyond them stays queued for the next call. When it holds fewer, the rest is uninitialised buffer. An odd trailing digit stays pending. |
| Passback.DecodeText | rtbkit/plugins/exchange/passback_encryption.cc:104-112 | The intended decoding reads only this text's digit pairs, so it is never longer than half the text. |
| Passback.HexPairDecodes | rtbkit/plugins/exchange/passback_encryption.cc:94-112 | The two digits written for a byte read back as its high and low nibbles. |
| Passback.HexDecodeEncode | rtbkit/plugins/exchange/passback_encryption.cc:94-112 | Decoding what was encoded gives the bytes back. |
| Passback.HexDecodeFreshEncode | rtbkit/plugins/exchange/passback_encryption.cc:94-112 | A fresh decoder decodes an encoding back to its bytes and stays fresh. |
| Passback.OddTrailingDigitKept | rtbkit/plugins/exchange/passback_encryption.cc:104-112 | Text of hex digits with one digit too many decodes as the even part, and the extra digit stays pending in the decoder. |
| Passback.StaleDigitShiftsNextDecode | rtbkit/plugins/exchange/passback_encryption.cc:104-112 | A digit left pending becomes the high half of the next call's first byte. |
| Passback.HexEncodeAppend | rtbkit/plugins/exchange/passback_encryption.cc:66-67 | Encoding two byte strings put together is encoding each and putting the results together. |
| Passback.AddDigest | rtbkit/plugins/exchange/passback_encryption.cc:66-68 | The framed text decodes to the ciphertext followed by its CRC-32. |
| Passback.RemoveDigest | rtbkit/plugins/exchange/passback_encryption.cc:70-82 | Four bytes or fewer give the empty string. A non-empty result is exactly what precedes a matching CRC-32 trailer. |
| Passback.RemoveDigestAddDigest | rtbkit/plugins/exchange/passback_encryption.cc:66-82 | A non-empty ciphertext followed by its own digest passes the check unchanged. |
| Passback.RemoveDigestRejects | rtbkit/plugins/exchange/passback_encryption.cc:75-81 | A trailer that is not the CRC-32 of what precedes it is refused. |
| Passback.KeyMaterial | rtbkit/plugins/exchange/passback_encryption.cc:32-35 | The cipher reads exactly sixteen bytes of the key: its first sixteen, or, for a fifteen-byte key, the key and its terminating NUL. |
| Passback.Encrypt | rtbkit/plugins/exchange/passback_encryption.cc:30-44 | The result decodes to the CFB ciphertext of the passback under the key and IV material, followed by that ciphertext's CRC-32. |
| Passback.Decrypt | rtbkit/plugins/exchange/passback_encryption.cc:46-64 | The decrypt as written, with the object's decoder. Text that fails the framing check gives the empty string, and the cipher is not applied. Otherwise the cipher is applied to the decoded ciphertext without its digest. The decoder keeps what `hexDecode` left in it. |
| Passback.DecryptText | rtbkit/plugins/exchange/passback_encryption.cc:46-64 | The corrected decrypt reads the framing from this passback's digits only. It fails the framing check the same way, and otherwise deciphers the ciphertext without its digest. |
| Passback.DecryptEncrypt | rtbkit/plugins/exchange/passback_encryption.cc:30-82 | Given a length-preserving cipher whose decryption inverts its encryption, every passback, the empty one included, is recovered. The corrected decrypt always recovers it. The as-written decrypt recovers it from a fresh decoder, which stays fresh. |
| Passback.OddPassbackDecrypts | rtbkit/plugins/exchange/passback_encryption.cc:46-64 | A passback with one stray trailing digit still decrypts as written, but leaves that digit in the object's decoder. |
| Passback.LeftoverDigitExample | rtbkit/plugins/exchange/passback_encryption.cc:104-112 | After a leftover "0", a passback whose framing starts with byte 0x12 is decoded as starting with 0x01, while its own digits say 0x12. |
| Passback.DecryptAgreesWhenFresh | rtbkit/plugins/exchange/passback_encryption.cc:46-64 | On text of hex digits, the as-written decrypt with a fresh decoder agrees with the corrected one. |
| Passback.TamperedDigestRejected | rtbkit/plugins/exchange/passback_encryption.cc:53-55 | A framed passback with a wrong digest decrypts to nothing, by both decrypts. |
| Passback.GenerateKey | rtbkit/plugins/exchange/passback_encryption.cc:114-122 | The key text is 30 hex digits and decodes to the first fifteen of the sixteen random bytes drawn. |
| Passback.GenerateIV | rtbkit/plugins/exchange/passback_encryption.cc:124-132 | The IV text is 30 hex digits and decodes to the first fifteen of the sixteen random bytes drawn. |
| Passback.HexEncodePrefix | rtbkit/plugins/exchange/passback_encryption.cc:94-102 | The first 2n digits of an encoding are the encoding of the first n bytes. |
| Passback.GeneratedKeyUsesEightBytes | rtbkit/plugins/exchange/passback_encryption.cc:31-35 | A generated key goes to the cipher as text, so two draws that agree on their first eight bytes give the same AES key. |
| Passback.DifferentDrawsSameKey | rtbkit/plugins/exchange/passback_encryption.cc:114-122 | Two different sixteen-byte draws give the same AES key. |
| Passback.GenerateFullKey | rtbkit/plugins/exchange/passback_encryption.cc:114-122 | The corrected key text encodes all sixteen random bytes. |
| Passback.DecodeGenerateFullKey | rtbkit/plugins/exchange/passback_encryption.cc:114-122 | The corrected key text decodes to all sixteen random bytes, so different draws give different keys. |
| ZmqAnalytics.LoggerNameInjective | rtbkit/plugins/analytics/zmq_analytics.cc:24-27 | Different services get different logger names. |
| ZmqAnalytics.ZmqFactory | rtbkit/plugins/analytics/zmq_analytics.cc:24-27 | The logger a factory builds is named after the service with "/logger" appended. |
| ZmqAnalytics.RegisterZmq | rtbkit/plugins/analytics/zmq_analytics.cc:428-438 | The start-up registration of the analytics plugin "zmq" always succeeds. |
| ZmqAnalytics.ZmqRegistered | rtbkit/plugins/analytics/zmq_analytics.cc:428-438 | After start-up, getting the analytics plugin "zmq" loads nothing and builds loggers named "<service>/logger". |
| ZmqAnalytics.AgentNames | rtbkit/plugins/analytics/zmq_analytics.cc:125-135 | Exactly the names of the router's agents. |
| ZmqAnalytics.UpdateAgents | rtbkit/plugins/analytics/zmq_analytics.cc:135-159 | The per-agent loop publishes exactly one record per agent. |
| ZmqAnalytics.UpdateAgentsRecords | rtbkit/plugins/analytics/zmq_analytics.cc:135-159 | Publishes one record per agent, in order. Each record carries the delta from the agent's remembered counters, or from zero for a new agent. |
| ZmqAnalytics.UpdateAgentsMemory | rtbkit/plugins/analytics/zmq_analytics.cc:135-159 | Each agent then remembers its current counters, and every other remembered entry is kept. |
| ZmqAnalytics.Prune | rtbkit/plugins/analytics/zmq_analytics.cc:125-133 | Keeps exactly the remembered entries of agents the router still has, unchanged. |
| ZmqAnalytics.UsageRecords | rtbkit/plugins/analytics/zmq_analytics.cc:121-192 | One record per agent with its delta, then one router record whose delta is the current totals minus the remembered ones. |
| ZmqAnalytics.AfterUsage | rtbkit/plugins/analytics/zmq_analytics.cc:121-192 | Afterwards the router remembers exactly the current agents' counters and the current totals. Nothing else changes. |
| ZmqAnalytics.LogUsage | rtbkit/plugins/analytics/zmq_analytics.cc:121-192 | The usage records are appended to the log, and the earlier log is kept. |
| ZmqAnalytics.UsageDeltasAccumulate | rtbkit/plugins/analytics/zmq_analytics.cc:137-158 | For every agent, the remembered counters plus the published delta equal the counters remembered afterwards. |
| ZmqAnalytics.SecondUsageUnchanged | rtbkit/plugins/analytics/zmq_analytics.cc:121-192 | Logging usage a second time with unchanged counters leaves the router as the first call left it. |
| ZmqAnalytics.SecondReportIsZero | rtbkit/plugins/analytics/zmq_analytics.cc:121-192 | With unchanged counters, the second report publishes all-zero deltas, for every agent and for the router. |
| ZmqAnalytics.RemovedAgentForgotten | rtbkit/plugins/analytics/zmq_analytics.cc:125-133 | An agent the router no longer has is not remembered afterwards. |
| ZmqAnalytics.AuctionEventName | rtbkit/plugins/analytics/zmq_analytics.cc:380-386 | "click" becomes "CLICK" and "conversion" becomes "CONVERSION". Any other name is kept. |
| ZmqAnalytics.AuctionEventNameIdempotent | rtbkit/plugins/analytics/zmq_analytics.cc:380-386 | Mapping a mapped name again changes nothing. |
| ZmqAnalytics.LogAuctionEvent | rtbkit/plugins/analytics/zmq_analytics.cc:380-393 | An event is published if and only if "event", "auctionId" and "adSpotId" read as strings and "timestamp" as a number. The record is appended under the mapped event name, with that timestamp and exactly the fields auction id, ad spot id and user ids. Otherwise the log is unchanged and the error is that of a failing conversion. |
| ZmqAnalytics.ClickPublishedUpperCase | rtbkit/plugins/analytics/zmq_analytics.cc:380-393 | A "click" event is published as "CLICK" with its timestamp, the auction id, the ad spot id and the user ids. |
| ZmqAnalytics.TextTimestampRejected | rtbkit/plugins/analytics/zmq_analytics.cc:389 | A timestamp given as text is not a number: the event is rejected, by that conversion or the event name's. |
| ZmqAnalytics.TopicsDistinguish | rtbkit/plugins/analytics/zmq_analytics.cc:220-299 | Matched and unmatched topics never coincide, and the label or type can be recovered from the topic. |
| OpenRtbResponse.Bids | rtbkit/examples/js-bidder/http_bid_agent_ex.js:98-160 | One bid per impression, in order. Bid k has id "k+1", the impression's id, the template's price, creative and priority, and the last external id seen up to that impression. |
| OpenRtbResponse.BuildBidsSpec | rtbkit/examples/js-bidder/http_bid_agent_ex.js:124-156 | The loop invariant: with the impressions already seen, each later bid gets the next counter, its impression's id, and the sticky external id over everything seen so far. |
| OpenRtbResponse.StickyPrefix | rtbkit/examples/js-bidder/http_bid_agent_ex.js:145-150 | The external id carried at an impression depends only on the impressions up to it. |
| OpenRtbResponse.ExternalIdSticky | rtbkit/examples/js-bidder/http_bid_agent_ex.js:145-155 | An impression with an external id puts it on its own bid. One without repeats the previous bid's external id, and the first bid has none. |
| OpenRtbResponse.BidIdsDistinct | rtbkit/examples/js-bidder/http_bid_agent_ex.js:138-140 | No two bids of a response share an id. |
| OpenRtbResponse.Next | rtbkit/examples/js-bidder/http_bid_agent_ex.js:238 | The next creative index stays in range and is the current one plus one, modulo the number of creatives. |
| OpenRtbResponse.Turn | rtbkit/examples/js-bidder/http_bid_agent_ex.js:227-240 | The creative index after any number of steps stays in range. |
| OpenRtbResponse.TurnCompose | rtbkit/examples/js-bidder/http_bid_agent_ex.js:227-240 | a + b steps are a steps followed by b steps. |
| OpenRtbResponse.TurnCounts | rtbkit/examples/js-bidder/http_bid_agent_ex.js:238 | Before wrapping, each step adds one to the index. |
| OpenRtbResponse.RoundRobinIndex | rtbkit/examples/js-bidder/http_bid_agent_ex.js:227-240 | Starting from zero, the first n steps visit 0..n-1 in order, and the index repeats every n steps. |
| OpenRtbResponse.AssignCreatives | rtbkit/examples/js-bidder/http_bid_agent_ex.js:225-240 | Fails exactly when there are bids but no creatives. Otherwise each bid gets the configured price and the creative its turn selects, and nothing else changes. |
| OpenRtbResponse.FixedPrice | rtbkit/examples/js-bidder/http_bid_agent_ex.js:219-244 | Fails exactly when there are bids but no creatives. Otherwise the response keeps its id and bid count, and bid k gets the price and creative number k modulo n. |
| OpenRtbResponse.RoundRobin | rtbkit/examples/js-bidder/http_bid_agent_ex.js:227-240 | With n creatives, the first n bids use each creative once, in order, and bids n apart use the same creative. |
| OpenRtbResponse.DefaultConfigurationBids | rtbkit/examples/js-bidder/http_bid_agent_ex.js:196-244 | With the default configuration (one creative, id 1), every bid uses creative "1" at price 1.0. |
| OpenRtbResponse.BalanceRequestInjective | rtbkit/examples/js-bidder/http_bid_agent_ex.js:392-398 | The top-up body determines the amount and the path determines the account. |
| JsBidder.Property | rtbkit/examples/js-bidder/http_bid_agent_ex.js:42-55 | Reading a property of null throws. An object member is read by name and an array element by index, and a missing one is `undefined`. |
| JsBidder.Marshal | rtbkit/examples/js-bidder/http_bid_agent_ex.js:42-55 | Following a path throws only a TypeError, and only by reading a property of null. A one-key path is a single property read. |
| JsBidder.MarshalAppend | rtbkit/examples/js-bidder/http_bid_agent_ex.js:42-55 | Following a key path in two parts is following the first part, then the rest from where it ended. It stops at the first `undefined`. |
| JsBidder.MarshalObjectPath | rtbkit/examples/js-bidder/http_bid_agent_ex.js:42-55 | An existing member is read back. A path whose first key is missing yields `undefined` without throwing. |
| JsBidder.ReadImp | rtbkit/examples/js-bidder/http_bid_agent_ex.js:135-150 | A null impression throws a TypeError. The id read is always `imp["id"]`, and the external id is what `jsonMarshaller` reads at "ext", "external-ids", 0. An object whose "ext" object holds a non-empty "external-ids" array contributes that array's first element; without "ext" or without "external-ids" there is no external id. |
| JsBidder.ReadImps | rtbkit/examples/js-bidder/http_bid_agent_ex.js:131-156 | Reads every impression in order. The loop throws exactly when reading some impression throws. |
| JsBidder.ReadImpOkIff | rtbkit/examples/js-bidder/http_bid_agent_ex.js:135-150 | Reading an impression throws exactly when it, its "ext" or that object's "external-ids" is null. |
| JsBidder.ValidateReq | rtbkit/examples/js-bidder/http_bid_agent_ex.js:163-182 | A request is valid exactly when it is defined and JavaScript's `typeof` calls it "object": null, arrays and objects. |
| JsBidder.GetResponse | rtbkit/examples/js-bidder/http_bid_agent_ex.js:98-182 | A request that fails validation gets the untouched template. A valid null request throws. Any other valid request succeeds exactly when every impression its `for ... in` visits can be read. The response then keeps the request id and has one bid per impression. |
| JsBidder.StickyExternalIdExample | rtbkit/examples/js-bidder/http_bid_agent_ex.js:124-156 | The bid object is reused across impressions, so an impression without external ids carries the previous impression's external id. |
| JsBidder.DoConfig | rtbkit/examples/js-bidder/http_bid_agent_ex.js:196-216 | The price is always 1.0. Without a config file the bid probability is 0.5 and the single creative has id 1; with one, both come from the file. |
| JsBidder.DoBid | rtbkit/examples/js-bidder/http_bid_agent_ex.js:219-244 | Succeeds exactly when building the response succeeds and either there are no bids or creatives are configured. A success is the response priced at the configured price, with the creatives in round-robin order. |
| JsBidder.WellFormedRequestBid | rtbkit/examples/js-bidder/http_bid_agent_ex.js:98-244 | An object request whose impressions can all be read, under a configuration with creatives, gets one bid per impression, each at the configured price. |
| JsBidder.InvalidRequestAnswered | rtbkit/examples/js-bidder/http_bid_agent_ex.js:114-244 | A request that is a number, a string or a boolean fails validation but is still answered: one template bid at the configured price with creative "1". |
| JsBidder.SendErr | rtbkit/examples/js-bidder/http_bid_agent_ex.js:258-267 | The error reply is a 204 with no headers and no content. The handler's body and response buffers are left empty for the next request. |
| JsBidder.SendOk | rtbkit/examples/js-bidder/http_bid_agent_ex.js:270-281 | The success reply is a 200 with the JSON and OpenRTB 2.1 headers, carrying the pending response plus a newline. The buffers are left empty. |
| JsBidder.Concat | rtbkit/examples/js-bidder/http_bid_agent_ex.js:357-361 | The body starts with the first chunk, and a single chunk is the whole body. |
| JsBidder.ConcatAppend | rtbkit/examples/js-bidder/http_bid_agent_ex.js:357-361 | Chunks received in two bursts build the same body as all at once. |
| JsBidder.ProcessBid | rtbkit/examples/js-bidder/http_bid_agent_ex.js:284-293 | A handler without a bidder leaves everything unchanged. With a bidder, an unparsable body throws a SyntaxError, and a successful bid stores the serialised response. |
| JsBidder.OnRequest | rtbkit/examples/js-bidder/http_bid_agent_ex.js:296-338 | A request handler throws exactly when bid processing throws. Otherwise it answers 200 with what processing produced; the 204 branch is unreachable. |
| JsBidder.DispatchAsWritten | rtbkit/examples/js-bidder/http_bid_agent_ex.js:341-385 | As written, every GET throws a TypeError because its call-table entry names a missing method. Every other verb is dispatched as intended. |
| JsBidder.Dispatch | rtbkit/examples/js-bidder/http_bid_agent_ex.js:341-385 | Unknown verbs get a 204, and a stream error on POST or PUT gets a 204. GET goes to the handler directly. POST and PUT handle the concatenated body chunks. |
| JsBidder.GetOnListener | rtbkit/examples/js-bidder/http_bid_agent_ex.js:341-385 | A GET to an ad-server listener throws as written, but is answered 200 with an empty line when routed as intended. |
| JsBidder.PostAnswered | rtbkit/examples/js-bidder/http_bid_agent_ex.js:284-385 | A POST whose body parses and can be priced is answered 200 with the serialised bid response. |
| JsBidder.PaceRequest | rtbkit/examples/js-bidder/http_bid_agent_ex.js:392-448 | The top-up is a POST of `{"USD/1M": amount}` to the account's balance path. It sends an Accept header and a Content-Length equal to the body's length. |
| PyBidder.Subscript | rtbkit/examples/py-bidder/http_bid_agent_ex.py:98-124 | A dict lookup succeeds exactly when the key is present. A list index raises IndexError past the end. Subscripting anything other than a dict or a sequence raises TypeError. |
| PyBidder.SubscriptPathAppend | rtbkit/examples/py-bidder/http_bid_agent_ex.py:124 | A chain of subscripts in two parts is the first part, then the rest, and the first failure propagates. |
| PyBidder.Iterate | rtbkit/examples/py-bidder/http_bid_agent_ex.py:111 | `for` over a list visits its items, and over a dict visits as many keys as it has. Iterating a non-container raises. |
| PyBidder.ExternalId | rtbkit/examples/py-bidder/http_bid_agent_ex.py:121-127 | The bare `except` turns any failure of `imp["ext"]["external-ids"][0]` into "no external id". Success yields exactly that value. |
| PyBidder.ReadImp | rtbkit/examples/py-bidder/http_bid_agent_ex.py:111-127 | Reading an impression raises exactly when `imp["id"]` raises. Otherwise it yields the id and the external id, if any. |
| PyBidder.ReadImps | rtbkit/examples/py-bidder/http_bid_agent_ex.py:111-132 | The loop succeeds exactly when every impression can be read, and then reads each one in order. |
| PyBidder.ValidateReq | rtbkit/examples/py-bidder/http_bid_agent_ex.py:136-142 | Every request is accepted. |
| PyBidder.GetDefaultResponse | rtbkit/examples/py-bidder/http_bid_agent_ex.py:87-134 | Succeeds exactly when the request has an "id" and an iterable "imp" whose impressions all have ids. The response copies the id and builds one bid per impression. |
| PyBidder.DefaultResponseBids | rtbkit/examples/py-bidder/http_bid_agent_ex.py:104-132 | Bid k has id str(k+1) and carries impression k's id. |
| PyBidder.StickyExternalId | rtbkit/examples/py-bidder/http_bid_agent_ex.py:105-132 | The bid template is reused, so an impression whose external-id lookup fails repeats the previous bid's external id. |
| PyBidder.DoConfig | rtbkit/examples/py-bidder/http_bid_agent_ex.py:158-164 | The configuration takes the file's probability and creatives, and the price is always 1.0. |
| PyBidder.DoBid | rtbkit/examples/py-bidder/http_bid_agent_ex.py:166-190 | A failing default response propagates its error. Otherwise the bid succeeds exactly when creatives are configured or there are no bids, and bids with no creatives raise IndexError. A success is the default response priced as configured. |
| PyBidder.WellFormedRequestBid | rtbkit/examples/py-bidder/http_bid_agent_ex.py:87-190 | A request with an "id" and a list of impressions that are dicts with an "id", under a configuration with creatives, gets one bid per impression, each at the configured price. |
| PyBidder.DoBidRoundRobin | rtbkit/examples/py-bidder/http_bid_agent_ex.py:179-188 | Every bid gets the configured price. The first n bids use the n creatives in order, and bids n apart use the same creative. |
| PyBidder.PricedRoundRobin | rtbkit/examples/py-bidder/http_bid_agent_ex.py:179-188 | The same round-robin property, stated for the pricing step alone. |
| PyBidder.ProcessBid | rtbkit/examples/py-bidder/http_bid_agent_ex.py:248-274 | The base handler answers nothing. The fixed-price handler fails exactly when `do_bid` raises, and otherwise answers its response. |
| PyBidder.ProcessReq | rtbkit/examples/py-bidder/http_bid_agent_ex.py:221-246 | A missing Content-Type raises KeyError, and a non-JSON one gets 204 "Error". Unparsable JSON raises. A parsed non-null request goes to `process_bid`: an exception it raises propagates, no response gives 204, and a response gives 200 with its dumped JSON. The base handler therefore answers 204 to every request it can read. |
| PyBidder.NullBodyRejected | rtbkit/examples/py-bidder/http_bid_agent_ex.py:226-244 | A JSON `null` body is answered 204 whatever the handler. |
| PyBidder.FixedPriceAnswered | rtbkit/examples/py-bidder/http_bid_agent_ex.py:221-274 | A fixed-price bid that succeeds is answered 200 with the JSON and OpenRTB headers and the dumped response. |
| PyBidder.PacerStart | rtbkit/examples/py-bidder/http_bid_agent_ex.py:294-300 | The request posts `{"USD/1M": amount}` with an Accept header to the account's balance URL on the banker host and port. |
| PyBidder.PacerRequestInjective | rtbkit/examples/py-bidder/http_bid_agent_ex.py:294-300 | For one banker, distinct amounts or accounts give distinct requests. |
| HttpApiBidder.PacerConfig | rtbkit/examples/httpapi/http_bid_agent_ex.py:232-240 | The body is the URL-encoded amount and the header is Accept JSON. The URL joins host, port string and the balance path of one fixed account. |
| HttpApiBidder.PacerTargetsFixedAccount | rtbkit/examples/httpapi/http_bid_agent_ex.py:232-240 | Whatever the banker address, the pacer tops up the account "hello:world". |
| HttpApiBidder.PacerBodyInjective | rtbkit/examples/httpapi/http_bid_agent_ex.py:234-235 | Distinct amounts give distinct bodies. |
| HttpApiBidder.HttpRequest | rtbkit/examples/httpapi/http_bid_agent_ex.py:242-245 | The fetch is commented out, so a tick posts nothing: the configured top-up never reaches the banker. |
| HttpApiBidder.PacerNeverPosts | rtbkit/examples/httpapi/http_bid_agent_ex.py:242-245 | Any number of periodic ticks sends no request at all, so the pacer never refills the account. |
| HttpApiBidder.ConfiguredBidReply | rtbkit/examples/httpapi/http_bid_agent_ex.py:132-226 | A JSON bid request is answered 200 with one bid per impression. Bids are numbered from "1", priced 1.0 and point at their impressions. |
| ToJunit.Classify | to_junit.py:17-25 | After stripping and removing the colour codes, a line counts only when it has exactly two words. The second word "passed" makes it a pass and "FAILED" a failure, named by the first word. |
| ToJunit.NoEscNoCode | to_junit.py:18-19 | Text without an escape character contains none of the colour codes. |
| ToJunit.RemoveAllSkip | to_junit.py:18-19 | Removing a code leaves unchanged the text that precedes any possible occurrence. |
| ToJunit.StripUntrimmed | to_junit.py:18 | A line with no surrounding whitespace is unchanged by `strip`. |
| ToJunit.ClassifyPlain | to_junit.py:17-25 | "name passed" is a pass and "name FAILED" a failure of `name`. |
| ToJunit.ClassifyColoured | to_junit.py:17-25 | The coloured form the runner prints, with green "passed" and a reset, is also a pass. |
| ToJunit.Verdicts | to_junit.py:17-25 | One verdict per input line, in order. |
| ToJunit.NamesFromVerdicts | to_junit.py:17-25 | A name is in the passed set exactly when some line passed it, and likewise for failed. |
| ToJunit.Collect | to_junit.py:14-27 | The passed set holds every name some line passed. The failed set holds the names some line failed and none passed. The two sets are disjoint. |
| ToJunit.PassWins | to_junit.py:17-27 | A name that passed on any line is never reported failed, even if it also failed elsewhere. |
| ToJunit.Enumerate | to_junit.py:38-61 | Set iteration visits each element exactly once. |
| ToJunit.FailuresAppend | to_junit.py:38-61 | The failure count of concatenated testcases is the sum of the counts. |
| ToJunit.FailuresAll | to_junit.py:38-61 | Testcases that all carry a failure count once each, and those that carry none count zero. |
| ToJunit.FailedCases | to_junit.py:38-54 | One testcase per failed name, each with a failure element holding that test's log. |
| ToJunit.PassedCases | to_junit.py:56-61 | One bare testcase per passed name. |
| ToJunit.CountFailures | to_junit.py:38-61 | Exactly the failed testcases carry failure elements. |
| ToJunit.Report | to_junit.py:29-63 | The suite has the five attributes. "tests" counts all testcases and "failures" counts the failed names, which agrees with the failure elements. Failed testcases come first, then passed ones, each name once. |
| ToJunit.ToJunit | to_junit.py:14-63 | For any console output, the suite has one testcase per distinct reported name. Its "tests" and "failures" attributes agree with its children. |

## Left out

- Dynamic loading is not modelled at the ABI level. `dlopen`/`dlerror` is an oracle that returns the registrations a library's static initialisers perform, or a load error.
- Concurrency is not modelled:
  - spinlocks, mutexes and atomic increments;
  - `MessageLoop` timers and the `waitReauthorized` sleep loop;
  - the unlocked balance update in the `LocalBanker` reply path.

  Ticks and callbacks are sequential event functions.
- I/O is not modelled:
  - HTTP clients and servers, the ZMQ socket, tornado and node servers;
  - the socket code of the test exchange sources (connect, read, write);
  - the example agents' configuration file reads (the JS `readConfig`, the Python `do_config` file opens). The JS `readConfig` checks that the file it is given exists ("../http_config.json" at http_bid_agent_ex.js:533) but then reads "./http_config.json" (lines 65-67); `JsBidder.DoConfig` takes the parsed file as a parameter, so which file is read is not modelled;
  - `to_junit.py`'s reading of failure logs, which is a `log` parameter;
  - XML text writing.
- `PluginTable::instance()` is not modelled. The private constructors make the table a singleton, and the model passes the one table explicitly.
- Floating point is not modelled:
  - the bid probability of the example agents;
  - the `acceptAuctionProbability` average in the analytics plugin, which divides by zero when there are no exchanges;
  - `USD_CPM` conversions;
  - the rounding of `processingTimeMs`.

  Prices are integers, or exact reals in the example agents.
- HttpBidderInterface.SendWinLoss: the win price and the timestamp (`secondsSinceEpoch()`, http_bidder_interface.cc:244) are doubles in the source and integers here.
- HttpBidderInterface.SendCampaignEvent: the timestamp (`secondsSinceEpoch()`, http_bidder_interface.cc:280) is a double in the source and an integer number of seconds here.
- ZmqAnalytics.LogAuctionEvent: the timestamp is read with `asDouble` and turned into a date; here it is an integer number of seconds and the date's formatting is not modelled. C++ leaves the order in which the publish arguments are evaluated unspecified; the model converts event, timestamp, auction id and ad spot id in that order, so when several fail the reported error is that order's first.
- Injection.GetLibraryAsWritten: a load whose registration throws terminates the process; the as-written lookup models only its copy of the map and reports the load as "couldn't find".
- AES-128/CFB and CRC-32 are oracles, and so is `AutoSeededRandomPool`: the random bytes are parameters.
- Passback.HexDecode: the decoder's queue is modelled for hex digits only. CryptoPP's decoder skips characters that are not hex digits, and the framing properties concern text of hex digits.
- Passback.KeyMaterial: requires a key of at least fifteen bytes. Shorter keys make the cipher read past the string.
- Passback.GenerateFullKey: its contract states the length of the key text. The partner lemma `DecodeGenerateFullKey` carries the property that matters.
- Casale.CampaignCompatibility: the message for a missing seat is built from a format string whose argument is missing. The model reports a fixed message.
- Casale.CampaignCompatibility: the exchange name's `c_str()` pointer outlives its temporary string. The model uses the name itself.
- HttpBidderInterface.FindAgent: requires every bidder to be one of the router's agents. For an unknown agent, `router->agents[agent]` default-constructs an entry whose null config the source then dereferences.
- ExchangeSource: `bidCount` is an unbounded counter. The source's 64-bit counter cannot overflow in practice.
- SlaveBanker: the `ReportSpend` path, the queue of created accounts and `getShadowAccountStr` are not modelled. They concern shadow-account contents outside these sources.
- SlaveBanker: the shadow-account merges are inputs described only by whether they throw. `ShadowAccounts` is not part of this model.
- SlaveBanker.OnAccountDone: whether the 200 handler throws is the `mergeThrows` input. `Account::fromJson` and `syncFromMaster` are not part of this model.
- LocalBanker.Bid: delegates to the Go account store, which is a parameter because `GoAccounts` is not part of this model.
- LocalBanker.Win: delegates to the Go account store, which is a parameter because `GoAccounts` is not part of this model.
- ZmqAnalytics.RegisterZmq: its ensures states only that registration under "zmq" succeeds and stores the factory. The factory's construction of the plugin is not modelled.
- ZmqAnalytics: the other `log*Message` publishers are not modelled. They forward their arguments unchanged.
- ZmqAnalytics: the `AgentUsageMetrics` of a new agent starts at zero.
- Json: numbers are integers, and the printing and parsing of JSON text is a caller-supplied codec.
- Json: with duplicate object keys, a lookup finds the first member.
- Json.Get: a value that is neither an object nor null is treated as having no members, so the default is returned. jsoncpp's `get` asserts on such a value and throws instead. The same holds for Json.At and Json.IsMember.
- JsBidder: `for ... in` over an array visits indices in order. JavaScript's ordering of integer-like object keys is not modelled.
- OpenRtbResponse: creatives are reduced to their ids.
- PyBidder: an uncaught Python exception is an error result. Tornado's handling of a 204 reply with a body is not modelled.
- PyBidder: `acs_register` is not modelled. Line 323 of the py-bidder source is a syntax error.
- HttpApiBidder: the banker port is a string, as the source concatenates it.
- ToJunit: an element keeps its attributes in the order the source's dictionary literals list them. Python 2.7's ElementTree sorts attributes by name when it serialises, and serialisation is not modelled. Set iteration order is any enumeration.
- `soa/types/time.h` only forwards to `std::chrono` literals.
- `rtbkit/common/analytics.cc` and `analytics.h` are empty virtual hooks, apart from the suffix "analytics", which is modelled.
- Header-only declarations are not modelled: `zmq_analytics.h`, `nexage_exchange_connector.h` and `passback_encryption.h`. The Nexage win price decoder is a floating-point function whose body is not part of this model.
- Drivers and benchmarks print and make HTTP calls, and are not modelled: `passback_encryption_runner.cc`, `passback_keygen.cc`, `banker_bench.cc`.
- `rtbkit/examples/bidder.py` calls into the `lwrtb` native binding, which is not part of this model.
- `plugin_table_test.cc` exercises a templated table interface that differs from the header modelled here.

## Findings

| source | as written | input that shows it | evidently intended | confidence | as-written member | corrected member |
|---|---|---|---|---|---|---|
| rtbkit/common/win_cost_model.cc:127-142 | For a wrong version, the `else` branch constructs an `ML::Exception` but never throws it (lines 139-141). A wrong version therefore leaves the model unchanged and reports nothing. | Items [2, name, data] | A version other than 1 is an error | not executed | WinCostModel.ReconstituteAsWritten, WinCostModel.WrongVersionSwallowed | WinCostModel.Reconstitute, WinCostModel.ReconstituteSerialize |
| rtbkit/core/banker/slave_banker.cc:409-473 | The `reauthorizing` flag is set before the accounts are counted. It is cleared only by the last reply, so with no initialised account it stays set and every later tick is skipped. | A tick with no initialised account, then any later tick | The flag is cleared when no request is sent | not executed | SlaveBanker.ReauthorizeTickAsWritten, SlaveBanker.StuckReauthorizing | SlaveBanker.ReauthorizeTick, SlaveBanker.NoStuckReauthorizing |
| rtbkit/core/banker/slave_banker.cc:177-235 | When the merge throws, the handler reports the exception and then falls through to report success as well. The `syncAll` aggregator then counts one account twice and fires early. | Two accounts, the first merge throws | One completion call per reply | not executed | SlaveBanker.CompletionCallsAsWritten, SlaveBanker.EarlyFireAsWritten | SlaveBanker.CompletionCalls, SlaveBanker.SyncAllFiresAtLastReply |
| rtbkit/common/win_cost_model.cc:21-83 | `std::bind` copies the model registry when the getter is built, which is before "none" is registered. `getLibrary` searches that copy, so no named model ever resolves. | A model named "none" | Named models resolve through the live registry | not executed | WinCostModel.EvaluateAsWritten, WinCostModel.NamedModelsNeverResolve | WinCostModel.Evaluate, WinCostModel.NoneModelChargesPrice |
| rtbkit/examples/js-bidder/http_bid_agent_ex.js:341-385 | The call table's GET entry calls `self.onget`, which does not exist, so every GET throws a TypeError. | A GET to the ad-server listener | GET is answered by `onGet` | not executed | JsBidder.DispatchAsWritten, JsBidder.GetOnListener | JsBidder.Dispatch, JsBidder.PostAnswered |
| rtbkit/plugins/exchange/casale_exchange_connector.cc:99-115 | The version header "2.0" is rewritten to "2.1" in a copy, but the original header is passed to the parser. | Header x-openrtb-version: 2.0 | The parser sees "2.1" | not executed | Casale.ParseBidRequestAsWritten, Casale.Version20ForwardedUnchanged | Casale.ParseBidRequest |
| rtbkit/common/testing/exchange_source.cc:213-294 | The three factory getters are bound with `std::bind`, which copies each factory map while it is still empty (lines 213-215, 220-226, 243-249, 271-277). `getLibrary` searches only that copy, so no bid source is ever created, and win and event sources exist only as "none". | Any bid-source configuration, or a win source of a registered type | Sources resolve through the live registries, including what an on-demand load registers | not executed | ExchangeSource.BidSourcesNeverCreated, ExchangeSource.AdserverSourcesOnlyNone | ExchangeSource.CreateBidSourceLive, ExchangeSource.CreateAdserverSourceLive, ExchangeSource.LoadedFactoryBuilds |
| rtbkit/common/injection.h:10-37 | The registry is passed by value, so the lookup after a successful load searches a copy that the library's registrations never reach. | A name not yet registered, whose library loads and registers it | The second lookup finds the loaded entry | not executed | Injection.GetLibraryAsWritten, Injection.LoadedEntryNotFoundAsWritten, BidderInterface.CreateLoadedTypeFails | Injection.GetLibrary |
| rtbkit/plugins/exchange/passback_encryption.cc:114-122 | `generateKey` hex-encodes fifteen of the sixteen random bytes. `encrypt` passes the hex text itself to AES as key bytes, so the key holds only eight bytes of randomness. | Two draws equal in their first eight bytes | The key is the sixteen random bytes | not executed | Passback.GenerateKey, Passback.DifferentDrawsSameKey | Passback.GenerateFullKey, Passback.DecodeGenerateFullKey |
| rtbkit/plugins/exchange/passback_encryption.cc:104-112 | `hexDecode` feeds the text to the object's one long-lived decoder and never flushes it. An odd trailing digit stays queued and becomes the high half of the next passback's first byte. | A passback with one extra trailing digit, then any other passback | Each passback is decoded from its own digits | not executed | Passback.Decrypt, Passback.LeftoverDigitExample | Passback.DecryptText, Passback.DecryptEncrypt |
