/** `PluginInterface<T>`: the per-capability front end of the plugin table. A
    capability `T` contributes its factory type (the tag entries are stored
    under) and its library suffix (which library a miss loads). */
module PluginInterface {
  import opened Wrappers
  import opened Loader
  import opened PluginTable

  datatype Capability = Capability(factoryType: CppType, libNameSufix: string)

  /** `Analytics::libNameSufix()`. */
  const AnalyticsSufix: string := "analytics"

  /** The analytics capability, for whatever type `Analytics::Factory` is. */
  function Analytics(factoryType: CppType): Capability {
    Capability(factoryType, AnalyticsSufix)
  }

  /** `PluginInterface<T>::registerPlugin`. */
  function RegisterPlugin<F>(t: Table<F>, cap: Capability, name: string, functor: F): (r: Result<Table<F>, Error>)
    ensures r.Ok? <==> name != ""
    ensures r.Ok? && Key(name, cap.factoryType.mangledName) !in t ==>
              Find(r.value, name, cap.factoryType.mangledName) == Some(functor)
  {
    PluginTable.RegisterPlugin(t, name, cap.factoryType, functor)
  }

  /** `PluginInterface<T>::getPlugin`: a miss loads "lib<name>_<T::libNameSufix()>.so". */
  function GetPlugin<F>(t: Table<F>, cap: Capability, name: string, load: string -> LoadOutcome<F>): (r: ReadOutcome<F>)
    ensures name != "" && Find(t, name, cap.factoryType.mangledName).None? ==>
              r.loads == [LibPath(name, cap.libNameSufix)]
    ensures r.result.Ok? ==> Find(r.table, name, cap.factoryType.mangledName) == Some(r.result.value)
  {
    PluginTable.GetPlugin(t, name, cap.factoryType, cap.libNameSufix, load)
  }

  /** An analytics plugin named "zmq" that is not yet registered is looked for
      in "libzmq_analytics.so", and nowhere else. */
  lemma ZmqAnalyticsLibrary<F>(t: Table<F>, factoryType: CppType, load: string -> LoadOutcome<F>)
    requires Find(t, "zmq", factoryType.mangledName).None?
    ensures GetPlugin(t, Analytics(factoryType), "zmq", load).loads == ["libzmq_analytics.so"]
  {
    assert LibPath("zmq", AnalyticsSufix) == "libzmq_analytics.so";
  }

  /** Registering through the interface and getting through it returns the
      registered factory without loading anything. */
  lemma RegisterThenGetPlugin<F>(t: Table<F>, cap: Capability, name: string, functor: F,
                                 load: string -> LoadOutcome<F>)
    requires name != "" && Key(name, cap.factoryType.mangledName) !in t
    ensures var t' := RegisterPlugin(t, cap, name, functor).value;
            GetPlugin(t', cap, name, load) == ReadOutcome(t', [], Ok(functor))
  {
    PluginTable.RegisterThenGet(t, name, cap.factoryType, functor, cap.libNameSufix, load);
  }
}
