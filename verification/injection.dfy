/** `getLibrary` from injection.h, the lookup-or-load helper behind the older
    registries (bidder interfaces, exchange sources, win cost models): look the
    name up; on a miss load "lib<name>_<suffix>.so", whose static initializers
    register entries in the live registry, and look again.

    The source passes the registry BY VALUE, so its second lookup searches a
    copy that the library's registrations cannot reach. `GetLibraryAsWritten`
    models that; `GetLibrary` is the lookup the comment in the source
    describes, searching the registry as the load left it. */
module Injection {
  import opened Wrappers
  import opened Loader

  datatype LibError =
    | LoadFailed(libSufix: string, path: string)  // "couldn't load <suffix> library <path>"
    | NotFound(errMsg: string, name: string)      // "couldn't find <errMsg> named <name>"
    | Duplicate(name: string)                     // a registry refusing a second entry
    | Terminated   // a registration threw inside the library's static initializer during
                   // `dlopen`; the exception cannot be caught there, so `std::terminate` ends
                   // the process and no caller resumes

  /** What `dlopen` does with a path: the library loads and registers entries,
      or the load fails. */
  datatype LoadOutcome<T> = Loaded(registrations: seq<(string, T)>) | LoadError

  /** The library paths `getLibrary` tried to load, the registrations the load
      made in the live registry, and the result. */
  datatype Resolution<T> = Resolution(loads: seq<string>, registered: seq<(string, T)>, result: Result<T, LibError>)

  /** The registration functions: a name can be registered once. */
  function RegisterUnique<T>(registry: map<string, T>, name: string, entry: T): (r: Result<map<string, T>, LibError>)
    ensures r.Err? <==> name in registry
    ensures r.Err? ==> r.error == Duplicate(name)
    ensures r.Ok? ==> r.value.Keys == registry.Keys + {name} && r.value[name] == entry
    ensures r.Ok? ==> forall n :: n in registry ==> r.value[n] == registry[n]
  {
    if name in registry then Err(Duplicate(name)) else Ok(registry[name := entry])
  }

  /** The live registry as a library's static initializers leave it, and
      whether one of them threw. */
  datatype AfterLoad<T> = AfterLoad(registry: map<string, T>, terminated: bool)

  /** Registering `regs` in order meets a name that is already held, either
      in the registry or by an earlier registration of the same library. */
  predicate Collides<T>(registry: map<string, T>, regs: seq<(string, T)>) {
    exists i :: 0 <= i < |regs| && (regs[i].0 in registry || exists j :: 0 <= j < i && regs[j].0 == regs[i].0)
  }

  /** A library's registrations, in order. A duplicate name throws out of the
      initializer: the registrations before it stay, the rest never run, and
      the process terminates. */
  function Install<T>(registry: map<string, T>, regs: seq<(string, T)>): (r: AfterLoad<T>)
    ensures registry.Keys <= r.registry.Keys
    ensures forall n :: n in registry ==> r.registry[n] == registry[n]
    ensures r.terminated <==> Collides(registry, regs)
    ensures !r.terminated ==> forall i :: 0 <= i < |regs| ==> regs[i].0 in r.registry && r.registry[regs[i].0] == regs[i].1
    decreases |regs|
  {
    if |regs| == 0 then AfterLoad(registry, false)
    else match RegisterUnique(registry, regs[0].0, regs[0].1)
      case Err(_) => AfterLoad(registry, true)
      case Ok(m) =>
        var r := Install(m, regs[1..]);
        CollidesStep(registry, regs);
        assert forall i :: 1 <= i < |regs| ==> regs[i] == regs[1..][i - 1];
        r
  }

  /** A collision is either the first name being held, or a later one
      colliding once the first is registered. */
  lemma CollidesStep<T>(registry: map<string, T>, regs: seq<(string, T)>)
    requires |regs| > 0
    ensures Collides(registry, regs)
            <==> regs[0].0 in registry || Collides(registry[regs[0].0 := regs[0].1], regs[1..])
  {
    var m := registry[regs[0].0 := regs[0].1];
    var rest := regs[1..];
    if Collides(registry, regs) && regs[0].0 !in registry {
      var i :| 0 <= i < |regs| && (regs[i].0 in registry || exists j :: 0 <= j < i && regs[j].0 == regs[i].0);
      assert i > 0 && rest[i - 1] == regs[i];
      if regs[i].0 !in registry && regs[i].0 != regs[0].0 {
        var j :| 0 <= j < i && regs[j].0 == regs[i].0;
        assert j > 0 && rest[j - 1] == regs[j];
      }
    }
    if Collides(m, rest) {
      var i :| 0 <= i < |rest| && (rest[i].0 in m || exists j :: 0 <= j < i && rest[j].0 == rest[i].0);
      assert regs[i + 1] == rest[i];
      if rest[i].0 !in m {
        var j :| 0 <= j < i && rest[j].0 == rest[i].0;
        assert regs[j + 1] == rest[j];
      } else if rest[i].0 == regs[0].0 {
        assert regs[0].0 == regs[i + 1].0;
      }
    }
  }

  /** A library that registers exactly one fresh name makes that name resolvable. */
  lemma InstallOne<T>(registry: map<string, T>, name: string, entry: T)
    requires name !in registry
    ensures Install(registry, [(name, entry)]) == AfterLoad(registry[name := entry], false)
  {
    assert [(name, entry)][1..] == [];
  }

  /** A library that registers a name already held terminates the process, and
      the names it would register after it never reach the registry. */
  lemma DuplicateTerminates<T>(registry: map<string, T>, name: string, entry: T, later: seq<(string, T)>)
    requires name in registry
    ensures Install(registry, [(name, entry)] + later) == AfterLoad(registry, true)
  {
  }

  /** `getLibrary` as the source writes it: both lookups search the copy. */
  function GetLibraryAsWritten<T>(name: string, libSufix: string, container: map<string, T>,
                                  load: string -> LoadOutcome<T>, errMsg: string): (r: Resolution<T>)
    ensures r.result.Ok? <==> name in container
    ensures name in container ==> r == Resolution([], [], Ok(container[name]))
    ensures name !in container ==> r.loads == [LibPath(name, libSufix)]
    ensures name !in container && load(LibPath(name, libSufix)).LoadError? ==>
              r == Resolution([LibPath(name, libSufix)], [], Err(LoadFailed(libSufix, LibPath(name, libSufix))))
    ensures name !in container && load(LibPath(name, libSufix)).Loaded? ==>
              r.registered == load(LibPath(name, libSufix)).registrations
              && r.result == Err(NotFound(errMsg, name))
  {
    if name in container then Resolution([], [], Ok(container[name]))
    else
      var path := LibPath(name, libSufix);
      match load(path)
      case LoadError => Resolution([path], [], Err(LoadFailed(libSufix, path)))
      // the second lookup searches the unchanged copy and misses again
      case Loaded(regs) => Resolution([path], regs, Err(NotFound(errMsg, name)))
  }

  /** `getLibrary` as intended: the second lookup sees what the load registered. */
  function GetLibrary<T>(name: string, libSufix: string, registry: map<string, T>,
                         load: string -> LoadOutcome<T>, errMsg: string): (r: Resolution<T>)
    ensures name in registry ==> r == Resolution([], [], Ok(registry[name]))
    ensures name !in registry ==> r.loads == [LibPath(name, libSufix)]
    ensures name !in registry && load(LibPath(name, libSufix)).LoadError? ==>
              r == Resolution([LibPath(name, libSufix)], [], Err(LoadFailed(libSufix, LibPath(name, libSufix))))
    ensures name !in registry && load(LibPath(name, libSufix)).Loaded? ==>
              r.registered == load(LibPath(name, libSufix)).registrations
              && (Install(registry, r.registered).terminated ==> r.result == Err(Terminated))
              && (!Install(registry, r.registered).terminated ==>
                    (r.result.Ok? <==> name in Install(registry, r.registered).registry))
    ensures r.result.Ok? ==>
              !Install(registry, r.registered).terminated
              && name in Install(registry, r.registered).registry
              && r.result.value == Install(registry, r.registered).registry[name]
    ensures r.result.Err? && r.result != Err(Terminated) ==> name !in Install(registry, r.registered).registry
  {
    if name in registry then Resolution([], [], Ok(registry[name]))
    else
      var path := LibPath(name, libSufix);
      match load(path)
      case LoadError => Resolution([path], [], Err(LoadFailed(libSufix, path)))
      case Loaded(regs) =>
        var after := Install(registry, regs);
        if after.terminated then Resolution([path], regs, Err(Terminated))
        else if name in after.registry then Resolution([path], regs, Ok(after.registry[name]))
        else Resolution([path], regs, Err(NotFound(errMsg, name)))
  }

  /** The two lookups differ only when a load registers the requested name:
      the source then reports "couldn't find" although the entry is now
      registered, and only a second call finds it. */
  lemma LoadedEntryNotFoundAsWritten<T>(name: string, libSufix: string, registry: map<string, T>,
                                        entry: T, errMsg: string)
    requires name !in registry
    ensures var load := (p: string) => Loaded([(name, entry)]);
            var first := GetLibraryAsWritten(name, libSufix, registry, load, errMsg);
            var retry := GetLibraryAsWritten(name, libSufix, Install(registry, first.registered).registry, load, errMsg);
            first.result == Err(NotFound(errMsg, name))
            && retry.result == Ok(entry)
            && GetLibrary(name, libSufix, registry, load, errMsg).result == Ok(entry)
  {
    InstallOne(registry, name, entry);
  }

  /** Whenever the as-written lookup succeeds, the intended one returns the same entry. */
  lemma AsWrittenSuccessAgrees<T>(name: string, libSufix: string, registry: map<string, T>,
                                  load: string -> LoadOutcome<T>, errMsg: string)
    requires GetLibraryAsWritten(name, libSufix, registry, load, errMsg).result.Ok?
    ensures GetLibrary(name, libSufix, registry, load, errMsg)
            == GetLibraryAsWritten(name, libSufix, registry, load, errMsg)
  {
  }

  /** A registered entry is found by `getLibrary` without loading anything. */
  lemma RegisterThenGetLibrary<T>(registry: map<string, T>, name: string, entry: T,
                                  libSufix: string, load: string -> LoadOutcome<T>, errMsg: string)
    requires name !in registry
    ensures RegisterUnique(registry, name, entry).Ok?
    ensures GetLibrary(name, libSufix, RegisterUnique(registry, name, entry).value, load, errMsg)
            == Resolution([], [], Ok(entry))
  {
  }

  /** `std::bind(getLibrary<T>, _1, suffix, registry, lock, errMsg)`: the
      registry is copied when the getter is built. */
  datatype BoundGetter<T> = BoundGetter(libSufix: string, snapshot: map<string, T>, errMsg: string) {
    function Call(name: string, load: string -> LoadOutcome<T>): Resolution<T> {
      GetLibraryAsWritten(name, libSufix, snapshot, load, errMsg)
    }
  }

  function Bind<T>(libSufix: string, registryNow: map<string, T>, errMsg: string): (g: BoundGetter<T>)
    ensures g.snapshot == registryNow
  {
    BoundGetter(libSufix, registryNow, errMsg)
  }

  /** A getter bound before a name is registered never resolves that name,
      although a lookup in the live registry does. */
  lemma LaterRegistrationInvisible<T>(libSufix: string, registryNow: map<string, T>, name: string, entry: T,
                                      errMsg: string, load: string -> LoadOutcome<T>)
    requires name !in registryNow
    ensures var g := Bind(libSufix, registryNow, errMsg);
            var live := RegisterUnique(registryNow, name, entry).value;
            g.Call(name, load).result.Err?
            && GetLibrary(name, libSufix, live, load, errMsg).result == Ok(entry)
  {
  }
}
